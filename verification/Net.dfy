/** Endpoints, contacts and the option type that the other modules share. */
module Net {
  import opened NodeIds

  datatype Option<+T> = None | Some(value: T)

  datatype SocketAddr = SocketAddr(ip: nat, port: nat)

  datatype Contact = Contact(id: NodeId, addr: SocketAddr, lastSeen: int)

  function Min(a: nat, b: nat): nat {
    if a <= b then a else b
  }

  function Max(a: nat, b: nat): nat {
    if a >= b then a else b
  }
}
