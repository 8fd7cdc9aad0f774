/** The bencode boundary scanner: the recursive-descent code, a functional form of it, and its grammar. */
module Bencode {
  import opened Bytes
  import opened Net

  const MAX_DEPTH: nat := 32
  const MAX_ITEMS: nat := 1024
  const MAX_STRING: nat := 1024 * 1024
  const USIZE: nat := 0x1_0000_0000_0000_0000

  datatype Error = TooDeep | Truncated | TooManyItems | UnterminatedDict | UnterminatedList
    | InvalidInteger | NonCanonicalInteger | InvalidMarker
    | InvalidLength | NonCanonicalLength | LengthOverflow | StringTooLong | TruncatedString

  /** Where the value ends and how many values have been counted so far. */
  datatype Scanned = Ok(end: nat, items: nat) | Err(error: Error)

  // ------------------------------------------------------------ the scanner as functions

  function SkipDigits(data: seq<Byte>, pos: nat): (e: nat)
    requires pos <= |data|
    ensures pos <= e <= |data| && AllDigits(data[pos..e])
    ensures e < |data| ==> !IsDigit(data[e])
    decreases |data| - pos
  {
    if pos < |data| && IsDigit(data[pos]) then
      var e := SkipDigits(data, pos + 1);
      assert data[pos..e] == [data[pos]] + data[pos + 1..e];
      e
    else pos
  }

  function ScanString(data: seq<Byte>, pos: nat, items: nat): (r: Scanned)
    requires pos <= |data|
    ensures r.Ok? ==> pos < r.end <= |data| && r.items == items
  {
    var e := SkipDigits(data, pos);
    if e == pos || e >= |data| || data[e] != 58 then Err(InvalidLength)
    else if e - pos > 1 && data[pos] == 48 then Err(NonCanonicalLength)
    else
      var length := ValueOf(data[pos..e]);
      if length >= USIZE then Err(LengthOverflow)
      else if length > MAX_STRING then Err(StringTooLong)
      else if e + 1 + length > |data| then Err(TruncatedString)
      else Ok(e + 1 + length, items)
  }

  function ScanInteger(data: seq<Byte>, pos: nat, items: nat): (r: Scanned)
    requires pos < |data|
    ensures r.Ok? ==> pos < r.end <= |data| && r.items == items
  {
    var start := pos + 1;
    var digits := if start < |data| && data[start] == 45 then start + 1 else start;
    var e := SkipDigits(data, digits);
    if e == digits || e >= |data| || data[e] != 101 then Err(InvalidInteger)
    else if data[start] == 48 && e - start > 1 then Err(NonCanonicalInteger)
    else Ok(e + 1, items)
  }

  function Scan(data: seq<Byte>, pos: nat, depth: nat, items: nat): (r: Scanned)
    requires pos <= |data|
    ensures r.Ok? ==> pos < r.end <= |data|
    decreases |data| - pos, 0
  {
    if depth > MAX_DEPTH then Err(TooDeep)
    else if pos >= |data| then Err(Truncated)
    else if items + 1 > MAX_ITEMS then Err(TooManyItems)
    else if data[pos] == 100 then ScanDict(data, pos + 1, depth, items + 1)
    else if data[pos] == 108 then ScanList(data, pos + 1, depth, items + 1)
    else if data[pos] == 105 then ScanInteger(data, pos, items + 1)
    else if IsDigit(data[pos]) then ScanString(data, pos, items + 1)
    else Err(InvalidMarker)
  }

  /** The rest of a list at this depth, its terminator included. */
  function ScanList(data: seq<Byte>, pos: nat, depth: nat, items: nat): (r: Scanned)
    requires pos <= |data|
    ensures r.Ok? ==> pos < r.end <= |data|
    decreases |data| - pos, 1
  {
    if pos >= |data| then Err(UnterminatedList)
    else if data[pos] == 101 then Ok(pos + 1, items)
    else
      var head := Scan(data, pos, depth + 1, items);
      if head.Err? then head else ScanList(data, head.end, depth, head.items)
  }

  /** The rest of a dictionary at this depth, its terminator included. */
  function ScanDict(data: seq<Byte>, pos: nat, depth: nat, items: nat): (r: Scanned)
    requires pos <= |data|
    ensures r.Ok? ==> pos < r.end <= |data|
    decreases |data| - pos, 1
  {
    if pos >= |data| then Err(UnterminatedDict)
    else if data[pos] == 101 then Ok(pos + 1, items)
    else
      var key := ScanString(data, pos, items);
      if key.Err? then key
      else
        var value := Scan(data, key.end, depth + 1, key.items);
        if value.Err? then value else ScanDict(data, value.end, depth, value.items)
  }

  // ------------------------------------------------------------ the scanner as written

  method SkipDigitsFrom(data: seq<Byte>, from: nat) returns (pos: nat)
    requires from <= |data|
    ensures pos == SkipDigits(data, from)
  {
    pos := from;
    while pos < |data| && IsDigit(data[pos])
      invariant from <= pos <= |data| && SkipDigits(data, pos) == SkipDigits(data, from)
    {
      pos := pos + 1;
    }
  }

  method ParseString(data: seq<Byte>, start: nat, items: nat) returns (r: Scanned)
    requires start <= |data|
    ensures r == ScanString(data, start, items)
  {
    var pos := SkipDigitsFrom(data, start);
    if start == pos || pos >= |data| || data[pos] != 58 {
      return Err(InvalidLength);
    }
    var lengthText := data[start..pos];
    if |lengthText| > 1 && lengthText[0] == 48 {
      return Err(NonCanonicalLength);
    }
    var length := ValueOf(lengthText);
    if length >= USIZE {
      return Err(LengthOverflow);
    }
    if length > MAX_STRING {
      return Err(StringTooLong);
    }
    pos := pos + 1;
    pos := pos + length;
    if pos > |data| {
      return Err(TruncatedString);
    }
    return Ok(pos, items);
  }

  /** The integer arm of parse_one. */
  method ParseInteger(data: seq<Byte>, start: nat, items: nat) returns (r: Scanned)
    requires start < |data|
    ensures r == ScanInteger(data, start, items)
  {
    var pos := start + 1;
    var intStart := pos;
    if pos < |data| && data[pos] == 45 {
      pos := pos + 1;
    }
    var digitsStart := pos;
    pos := SkipDigitsFrom(data, pos);
    if digitsStart == pos || pos >= |data| || data[pos] != 101 {
      return Err(InvalidInteger);
    }
    if data[intStart] == 48 && pos - intStart > 1 {
      return Err(NonCanonicalInteger);
    }
    return Ok(pos + 1, items);
  }

  /** parse_one: the loops over list and dictionary entries, with one shared position and item count. */
  method ParseOne(data: seq<Byte>, start: nat, depth: nat, counted: nat) returns (r: Scanned)
    requires start <= |data|
    ensures r == Scan(data, start, depth, counted)
    decreases |data| - start
  {
    hide ScanString, ScanInteger;
    if depth > MAX_DEPTH {
      return Err(TooDeep);
    }
    if start >= |data| {
      return Err(Truncated);
    }
    var pos: nat, items: nat := start, counted + 1;
    if items > MAX_ITEMS {
      return Err(TooManyItems);
    }
    if data[pos] == 100 {
      pos := pos + 1;
      while true
        invariant start < pos <= |data|
        invariant ScanDict(data, pos, depth, items) == Scan(data, start, depth, counted)
        decreases |data| - pos
      {
        if pos >= |data| {
          return Err(UnterminatedDict);
        }
        if data[pos] == 101 {
          return Ok(pos + 1, items);
        }
        var key := ParseString(data, pos, items);
        if key.Err? {
          return key;
        }
        var value := ParseOne(data, key.end, depth + 1, key.items);
        if value.Err? {
          return value;
        }
        pos, items := value.end, value.items;
      }
    } else if data[pos] == 108 {
      pos := pos + 1;
      while true
        invariant start < pos <= |data|
        invariant ScanList(data, pos, depth, items) == Scan(data, start, depth, counted)
        decreases |data| - pos
      {
        if pos >= |data| {
          return Err(UnterminatedList);
        }
        if data[pos] == 101 {
          return Ok(pos + 1, items);
        }
        var head := ParseOne(data, pos, depth + 1, items);
        if head.Err? {
          return head;
        }
        pos, items := head.end, head.items;
      }
    } else if data[pos] == 105 {
      r := ParseInteger(data, pos, items);
    } else if IsDigit(data[pos]) {
      r := ParseString(data, pos, items);
    } else {
      return Err(InvalidMarker);
    }
  }

  method FindBencodeEnd(data: seq<Byte>) returns (r: Scanned)
    ensures r == Scan(data, 0, 0, 0)
  {
    r := ParseOne(data, 0, 0, 0);
  }

  // ------------------------------------------------------------ the grammar

  datatype Tree = Num(minus: bool, digits: seq<Byte>) | Str(text: seq<Byte>) | List(items: Trees) | Dict(entries: Entries)
  datatype Trees = Nil | Cons(head: Tree, tail: Trees)
  datatype Entries = End | Entry(key: seq<Byte>, value: Tree, rest: Entries)

  function UnparseString(text: seq<Byte>): seq<Byte>
  {
    Decimal(|text|) + ([58] + text)
  }

  function Sign(minus: bool): seq<Byte>
  {
    if minus then [45] else []
  }

  function Unparse(t: Tree): seq<Byte>
  {
    match t
    case Num(minus, digits) => [105] + (Sign(minus) + (digits + [101]))
    case Str(text) => UnparseString(text)
    case List(items) => [108] + UnparseList(items)
    case Dict(entries) => [100] + UnparseDict(entries)
  }

  function UnparseList(ts: Trees): seq<Byte>
  {
    match ts
    case Nil => [101]
    case Cons(head, tail) => Unparse(head) + UnparseList(tail)
  }

  function UnparseDict(es: Entries): seq<Byte>
  {
    match es
    case End => [101]
    case Entry(key, value, rest) => UnparseString(key) + (Unparse(value) + UnparseDict(rest))
  }

  /** What the scanner asks of the leaves: a plain integer has no leading zero, one with a sign may. */
  predicate WellFormed(t: Tree)
  {
    match t
    case Num(minus, digits) => |digits| > 0 && AllDigits(digits) && (!minus && |digits| > 1 ==> digits[0] != 48)
    case Str(text) => |text| <= 1048576
    case List(items) => WellFormedList(items)
    case Dict(entries) => WellFormedDict(entries)
  }

  predicate WellFormedList(ts: Trees)
  {
    ts.Cons? ==> WellFormed(ts.head) && WellFormedList(ts.tail)
  }

  predicate WellFormedDict(es: Entries)
  {
    es.Entry? ==> |es.key| <= 1048576 && WellFormed(es.value) && WellFormedDict(es.rest)
  }

  /** How deep the deepest value lies below t. */
  function Depth(t: Tree): nat
  {
    match t
    case Num(_, _) => 0
    case Str(_) => 0
    case List(items) => DepthList(items)
    case Dict(entries) => DepthDict(entries)
  }

  function DepthList(ts: Trees): nat
  {
    if ts.Nil? then 0 else Max(1 + Depth(ts.head), DepthList(ts.tail))
  }

  function DepthDict(es: Entries): nat
  {
    if es.End? then 0 else Max(1 + Depth(es.value), DepthDict(es.rest))
  }

  /** The values in t, itself included; dictionary keys do not count. */
  function Size(t: Tree): nat
  {
    match t
    case Num(_, _) => 1
    case Str(_) => 1
    case List(items) => 1 + SizeList(items)
    case Dict(entries) => 1 + SizeDict(entries)
  }

  function SizeList(ts: Trees): nat
  {
    if ts.Nil? then 0 else Size(ts.head) + SizeList(ts.tail)
  }

  function SizeDict(es: Entries): nat
  {
    if es.End? then 0 else Size(es.value) + SizeDict(es.rest)
  }

  /** Within the limits: 32 levels below the value itself, 1024 values, strings of 1 MiB. */
  predicate Admitted(t: Tree)
  {
    WellFormed(t) && Depth(t) <= 32 && Size(t) <= 1024
  }

  // ------------------------------------------------------------ what is refused, and why

  /** digits are all the digits that stand at pos. */
  predicate DigitsAt(data: seq<Byte>, pos: nat, digits: seq<Byte>)
  {
    At(data, pos, digits) && AllDigits(digits) && (pos + |digits| < |data| ==> !IsDigit(data[pos + |digits|]))
  }

  predicate ByteAt(data: seq<Byte>, pos: nat, b: Byte)
  {
    pos < |data| && data[pos] == b
  }

  lemma {:induction false} SkipAllDigits(data: seq<Byte>, pos: nat, digits: seq<Byte>)
    requires DigitsAt(data, pos, digits)
    ensures SkipDigits(data, pos) == pos + |digits| && data[pos..SkipDigits(data, pos)] == digits
    decreases |digits|
  {
    if |digits| > 0 {
      assert data[pos] == data[pos..pos + |digits|][0] == digits[0];
      assert data[pos + 1..pos + |digits|] == digits[1..];
      SkipAllDigits(data, pos + 1, digits[1..]);
    }
  }

  /** The string is refused, and why, or accepted. */
  lemma StringRefused(data: seq<Byte>, pos: nat, items: nat, digits: seq<Byte>)
    requires DigitsAt(data, pos, digits)
    ensures var r := ScanString(data, pos, items);
            var colon := pos + |digits|;
            if digits == [] || !ByteAt(data, colon, 58) then r == Err(InvalidLength)
            else if |digits| > 1 && digits[0] == 48 then r == Err(NonCanonicalLength)
            else if ValueOf(digits) >= 18446744073709551616 then r == Err(LengthOverflow)
            else if ValueOf(digits) > 1048576 then r == Err(StringTooLong)
            else if colon + 1 + ValueOf(digits) > |data| then r == Err(TruncatedString)
            else r == Ok(colon + 1 + ValueOf(digits), items)
  {
    SkipAllDigits(data, pos, digits);
    assert digits != [] ==> data[pos..pos + |digits|][0] == data[pos];
  }

  /** The integer behind the byte at pos is refused, and why, or accepted. */
  lemma IntegerRefused(data: seq<Byte>, pos: nat, items: nat, minus: bool, digits: seq<Byte>)
    requires pos < |data| && (minus <==> ByteAt(data, pos + 1, 45))
    requires DigitsAt(data, pos + 1 + |Sign(minus)|, digits)
    ensures var r := ScanInteger(data, pos, items);
            var end := pos + 1 + |Sign(minus)| + |digits|;
            if digits == [] || !ByteAt(data, end, 101) then r == Err(InvalidInteger)
            else if !minus && |digits| > 1 && digits[0] == 48 then r == Err(NonCanonicalInteger)
            else r == Ok(end + 1, items)
  {
    var from := pos + 1 + |Sign(minus)|;
    SkipAllDigits(data, from, digits);
    assert digits != [] ==> data[from..from + |digits|][0] == data[from];
  }

  /** A value begins with d, l, i or a digit. */
  predicate Marker(b: Byte)
  {
    b == 100 || b == 108 || b == 105 || 48 <= b <= 57
  }

  /** The limits come first, depth before items, and then the marker. */
  lemma LimitsRefused(data: seq<Byte>, pos: nat, depth: nat, items: nat)
    requires pos <= |data|
    ensures var r := Scan(data, pos, depth, items);
            && (depth > 32 ==> r == Err(TooDeep))
            && (depth <= 32 && pos == |data| ==> r == Err(Truncated))
            && (depth <= 32 && pos < |data| && items >= 1024 ==> r == Err(TooManyItems))
            && (depth <= 32 && pos < |data| && items < 1024 && !Marker(data[pos]) ==> r == Err(InvalidMarker))
            && (depth <= 32 && pos + 1 == |data| && items < 1024 ==>
                  && (data[pos] == 100 ==> r == Err(UnterminatedDict)) && (data[pos] == 108 ==> r == Err(UnterminatedList)))
  {
    hide ScanString, ScanInteger;
  }

  // ------------------------------------------------------------ strings and integers

  lemma StringComplete(text: seq<Byte>, data: seq<Byte>, pos: nat, items: nat)
    requires At(data, pos, UnparseString(text)) && |text| <= MAX_STRING
    ensures ScanString(data, pos, items) == Ok(pos + |UnparseString(text)|, items)
  {
    var length := Decimal(|text|);
    DecimalCanonical(|text|);
    AtConcat(data, pos, length, [58] + text);
    AtConcat(data, pos + |length|, [58], text);
    assert data[pos + |length|] == 58 by { AtFirst(data, pos + |length|, [58]); }
    assert data[pos] == length[0] by { AtFirst(data, pos, length); }
    SkipAllDigits(data, pos, length);
  }

  lemma AtFirst(data: seq<Byte>, pos: nat, text: seq<Byte>)
    requires At(data, pos, text) && |text| > 0
    ensures pos < |data| && data[pos] == text[0]
  {
    assert data[pos..pos + |text|][0] == text[0];
  }

  lemma StringSound(data: seq<Byte>, pos: nat, items: nat) returns (text: seq<Byte>)
    requires pos <= |data| && ScanString(data, pos, items).Ok?
    ensures |text| <= MAX_STRING && data[pos..ScanString(data, pos, items).end] == UnparseString(text)
  {
    var e := SkipDigits(data, pos);
    var end := ScanString(data, pos, items).end;
    text := data[e + 1..end];
    CanonicalIsDecimal(data[pos..e]);
    assert data[pos..end] == data[pos..e] + ([data[e]] + text);
  }

  lemma IntegerComplete(minus: bool, digits: seq<Byte>, data: seq<Byte>, pos: nat, items: nat)
    requires At(data, pos, Unparse(Num(minus, digits))) && WellFormed(Num(minus, digits))
    ensures ScanInteger(data, pos, items) == Ok(pos + |Unparse(Num(minus, digits))|, items)
  {
    hide At;
    IntegerParts(minus, digits, data, pos);
    SkipAllDigits(data, pos + 1 + |Sign(minus)|, digits);
  }

  /** Where the sign, the digits and the end of an encoded integer lie. */
  lemma IntegerParts(minus: bool, digits: seq<Byte>, data: seq<Byte>, pos: nat)
    requires At(data, pos, Unparse(Num(minus, digits))) && |digits| > 0
    ensures var d := pos + 1 + |Sign(minus)|;
            && d + |digits| < |data| && At(data, d, digits)
            && data[pos + 1] == (if minus then 45 else digits[0]) && data[d] == digits[0] && data[d + |digits|] == 101
  {
    hide At;
    var s := Sign(minus);
    AtConcat(data, pos, [105], s + (digits + [101]));
    AtConcat(data, pos + 1, s, digits + [101]);
    AtConcat(data, pos + 1 + |s|, digits, [101]);
    AtFirst(data, pos + 1 + |s| + |digits|, [101]);
    AtFirst(data, pos + 1 + |s|, digits);
    if minus {
      AtFirst(data, pos + 1, s);
    }
  }

  lemma IntegerSound(data: seq<Byte>, pos: nat, items: nat) returns (t: Tree)
    requires pos < |data| && data[pos] == 105 && ScanInteger(data, pos, items).Ok?
    ensures t.Num? && WellFormed(t) && data[pos..ScanInteger(data, pos, items).end] == Unparse(t)
  {
    var end := ScanInteger(data, pos, items).end;
    var minus := data[pos + 1] == 45;
    var from := if minus then pos + 2 else pos + 1;
    t := Num(minus, data[from..end - 1]);
    IntegerBytes(data, pos, from, end, minus);
  }

  lemma IntegerBytes(data: seq<Byte>, pos: nat, from: nat, end: nat, minus: bool)
    requires from == (if minus then pos + 2 else pos + 1) < end <= |data|
    requires data[pos] == 105 && (minus ==> data[pos + 1] == 45) && data[end - 1] == 101
    ensures data[pos..end] == Unparse(Num(minus, data[from..end - 1]))
  {
    assert data[from..end] == data[from..end - 1] + [101];
    assert data[pos + 1..from] == Sign(minus);
    assert data[pos + 1..end] == data[pos + 1..from] + data[from..end];
    assert data[pos..end] == [105] + data[pos + 1..end];
  }

  // ------------------------------------------------------------ completeness

  lemma StringFirstByte(text: seq<Byte>)
    ensures |UnparseString(text)| > 0 && IsDigit(UnparseString(text)[0])
  {
    DecimalCanonical(|text|);
  }

  /** The first byte tells which kind of value follows. */
  lemma KindByte(t: Tree)
    ensures |Unparse(t)| > 0
    ensures t.Num? <==> Unparse(t)[0] == 105
    ensures t.List? <==> Unparse(t)[0] == 108
    ensures t.Dict? <==> Unparse(t)[0] == 100
    ensures t.Str? <==> IsDigit(Unparse(t)[0])
    ensures Unparse(t)[0] != 101
  {
    if t.Str? {
      StringFirstByte(t.text);
    }
  }

  /** A well-formed value within the limits is scanned to its end, whatever follows it. */
  lemma {:induction false} Complete(t: Tree, data: seq<Byte>, pos: nat, depth: nat, items: nat)
    requires WellFormed(t) && depth + Depth(t) <= MAX_DEPTH && items + Size(t) <= MAX_ITEMS
    requires At(data, pos, Unparse(t))
    ensures Scan(data, pos, depth, items) == Ok(pos + |Unparse(t)|, items + Size(t))
    decreases t
  {
    hide At, ScanString, ScanInteger, UnparseString;
    KindByte(t);
    AtFirst(data, pos, Unparse(t));
    match t
    case Num(minus, digits) =>
      IntegerComplete(minus, digits, data, pos, items + 1);
    case Str(text) =>
      StringFirstByte(text);
      StringComplete(text, data, pos, items + 1);
    case List(children) =>
      AtConcat(data, pos, [108], UnparseList(children));
      CompleteList(children, data, pos + 1, depth, items + 1);
    case Dict(entries) =>
      AtConcat(data, pos, [100], UnparseDict(entries));
      CompleteDict(entries, data, pos + 1, depth, items + 1);
  }

  lemma {:induction false} CompleteList(ts: Trees, data: seq<Byte>, pos: nat, depth: nat, items: nat)
    requires WellFormedList(ts) && depth + DepthList(ts) <= MAX_DEPTH && items + SizeList(ts) <= MAX_ITEMS
    requires At(data, pos, UnparseList(ts))
    ensures ScanList(data, pos, depth, items) == Ok(pos + |UnparseList(ts)|, items + SizeList(ts))
    decreases ts
  {
    hide At, Scan, Unparse, Size, Depth, WellFormed;
    if ts.Nil? {
      AtFirst(data, pos, [101]);
    } else {
      var head := Unparse(ts.head);
      AtConcat(data, pos, head, UnparseList(ts.tail));
      KindByte(ts.head);
      AtFirst(data, pos, head);
      Complete(ts.head, data, pos, depth + 1, items);
      CompleteList(ts.tail, data, pos + |head|, depth, items + Size(ts.head));
    }
  }

  lemma {:induction false} CompleteDict(es: Entries, data: seq<Byte>, pos: nat, depth: nat, items: nat)
    requires WellFormedDict(es) && depth + DepthDict(es) <= MAX_DEPTH && items + SizeDict(es) <= MAX_ITEMS
    requires At(data, pos, UnparseDict(es))
    ensures ScanDict(data, pos, depth, items) == Ok(pos + |UnparseDict(es)|, items + SizeDict(es))
    decreases es
  {
    hide At, ScanString, UnparseString;
    if es.End? {
      AtFirst(data, pos, [101]);
    } else {
      var key, value := UnparseString(es.key), Unparse(es.value);
      AtConcat(data, pos, key, value + UnparseDict(es.rest));
      AtConcat(data, pos + |key|, value, UnparseDict(es.rest));
      StringFirstByte(es.key);
      AtFirst(data, pos, key);
      StringComplete(es.key, data, pos, items);
      Complete(es.value, data, pos + |key|, depth + 1, items);
      CompleteDict(es.rest, data, pos + |key| + |value|, depth, items + Size(es.value));
    }
  }

  // ------------------------------------------------------------ soundness

  /** Whatever the scanner accepts is a value of the grammar within the limits. */
  lemma {:induction false} Sound(data: seq<Byte>, pos: nat, depth: nat, items: nat) returns (t: Tree)
    requires pos <= |data| && Scan(data, pos, depth, items).Ok?
    ensures var r := Scan(data, pos, depth, items);
            && WellFormed(t) && depth + Depth(t) <= MAX_DEPTH
            && r.items == items + Size(t) <= MAX_ITEMS && data[pos..r.end] == Unparse(t)
    decreases |data| - pos, 0
  {
    hide ScanString, ScanInteger, UnparseString;
    var end := Scan(data, pos, depth, items).end;
    if data[pos] == 100 {
      var es := SoundDict(data, pos + 1, depth, items + 1);
      t := Dict(es);
      assert data[pos..end] == [data[pos]] + data[pos + 1..end];
    } else if data[pos] == 108 {
      var ts := SoundList(data, pos + 1, depth, items + 1);
      t := List(ts);
      assert data[pos..end] == [data[pos]] + data[pos + 1..end];
    } else if data[pos] == 105 {
      t := IntegerSound(data, pos, items + 1);
    } else {
      var text := StringSound(data, pos, items + 1);
      t := Str(text);
    }
  }

  lemma {:induction false} SoundList(data: seq<Byte>, pos: nat, depth: nat, items: nat) returns (ts: Trees)
    requires pos <= |data| && depth <= MAX_DEPTH && items <= MAX_ITEMS && ScanList(data, pos, depth, items).Ok?
    ensures var r := ScanList(data, pos, depth, items);
            && WellFormedList(ts) && depth + DepthList(ts) <= MAX_DEPTH
            && r.items == items + SizeList(ts) <= MAX_ITEMS && data[pos..r.end] == UnparseList(ts)
    decreases |data| - pos, 1
  {
    hide Scan;
    if data[pos] == 101 {
      ts := Nil;
      assert data[pos..pos + 1] == [101];
    } else {
      var mid := Scan(data, pos, depth + 1, items);
      var head := Sound(data, pos, depth + 1, items);
      var tail := SoundList(data, mid.end, depth, mid.items);
      ts := Cons(head, tail);
      var end := ScanList(data, pos, depth, items).end;
      assert data[pos..end] == data[pos..mid.end] + data[mid.end..end];
    }
  }

  lemma {:induction false} SoundDict(data: seq<Byte>, pos: nat, depth: nat, items: nat) returns (es: Entries)
    requires pos <= |data| && depth <= MAX_DEPTH && items <= MAX_ITEMS && ScanDict(data, pos, depth, items).Ok?
    ensures var r := ScanDict(data, pos, depth, items);
            && WellFormedDict(es) && depth + DepthDict(es) <= MAX_DEPTH
            && r.items == items + SizeDict(es) <= MAX_ITEMS && data[pos..r.end] == UnparseDict(es)
    decreases |data| - pos, 1
  {
    hide ScanString, UnparseString, Scan, Unparse, Size, Depth, WellFormed;
    if data[pos] == 101 {
      es := End;
      assert data[pos..pos + 1] == [101];
    } else {
      var k := ScanString(data, pos, items).end;
      var key := StringSound(data, pos, items);
      var mid := Scan(data, k, depth + 1, items);
      var value := Sound(data, k, depth + 1, items);
      var rest := SoundDict(data, mid.end, depth, mid.items);
      es := Entry(key, value, rest);
      var end := ScanDict(data, pos, depth, items).end;
      assert data[pos..end] == data[pos..k] + (data[k..mid.end] + data[mid.end..end]);
    }
  }

  // ------------------------------------------------------------ the boundary

  /** find_bencode_end(data), without the item count. */
  predicate EndsAt(data: seq<Byte>, n: nat)
  {
    Scan(data, 0, 0, 0).Ok? && Scan(data, 0, 0, 0).end == n
  }

  /** The scanner answers n exactly when the first n bytes are a value of the grammar within the limits. */
  lemma EndsExactly(data: seq<Byte>, n: nat)
    ensures EndsAt(data, n) <==> n <= |data| && exists t :: Admitted(t) && Unparse(t) == data[..n]
  {
    if EndsAt(data, n) {
      var t := Sound(data, 0, 0, 0);
      assert data[..n] == data[0..n];
      assert Admitted(t) && Unparse(t) == data[..n];
    }
    if n <= |data| {
      if t :| Admitted(t) && Unparse(t) == data[..n] {
        assert data[0..0 + |Unparse(t)|] == data[..n];
        Complete(t, data, 0, 0, 0);
      }
    }
  }

  /** Every value within the limits is found whole, whatever follows it. */
  lemma ValueThenTail(t: Tree, tail: seq<Byte>)
    requires Admitted(t)
    ensures EndsAt(Unparse(t) + tail, |Unparse(t)|)
  {
    assert (Unparse(t) + tail)[..|Unparse(t)|] == Unparse(t);
    EndsExactly(Unparse(t) + tail, |Unparse(t)|);
  }

  /** The answer does not depend on the bytes after the value. */
  lemma TailIgnored(data: seq<Byte>, other: seq<Byte>, n: nat)
    requires EndsAt(data, n) && n <= |data| && n <= |other| && data[..n] == other[..n]
    ensures EndsAt(other, n)
  {
    EndsExactly(data, n);
    EndsExactly(other, n);
  }

  /** No strict prefix of an accepted value is accepted. */
  lemma NoStrictPrefix(data: seq<Byte>, n: nat, m: nat)
    requires EndsAt(data, n) && m < n <= |data|
    ensures Scan(data[..m], 0, 0, 0).Err?
  {
    var r := Scan(data[..m], 0, 0, 0);
    if r.Ok? {
      TailIgnored(data[..m], data, r.end);
    }
  }

  // ------------------------------------------------------------ canonical values

  /** Canonical integers: BEP 3 forbids leading zeros and negative zero; dictionary keys ascend. */
  predicate Canonical(t: Tree)
  {
    match t
    case Num(minus, digits) => CanonicalDigits(digits) && !(minus && digits == [48])
    case Str(text) => |text| <= 1048576
    case List(items) => CanonicalList(items)
    case Dict(entries) => CanonicalDict(entries)
  }

  predicate CanonicalList(ts: Trees)
  {
    ts.Cons? ==> Canonical(ts.head) && CanonicalList(ts.tail)
  }

  predicate CanonicalDict(es: Entries)
  {
    es.Entry? ==> |es.key| <= 1048576 && Canonical(es.value) && CanonicalDict(es.rest)
                  && (es.rest.Entry? ==> KeyLess(es.key, es.rest.key))
  }

  predicate KeyLess(a: seq<Byte>, b: seq<Byte>)
  {
    |b| > 0 && (|a| == 0 || a[0] < b[0] || (a[0] == b[0] && KeyLess(a[1..], b[1..])))
  }

  /** The number an integer value denotes. */
  function Denotes(t: Tree): int
    requires t.Num? && AllDigits(t.digits)
  {
    var n: int := ValueOf(t.digits);
    if t.minus then -n else n
  }

  function IntTree(n: int): Tree
  {
    Num(n < 0, Decimal(if n < 0 then -n else n))
  }

  /** Every integer has one canonical encoding, and only that one. */
  lemma IntTreeExact(n: int, t: Tree)
    ensures Canonical(t) && t.Num? && Denotes(t) == n <==> t == IntTree(n)
  {
    DecimalCanonical(if n < 0 then -n else n);
    if Canonical(t) && t.Num? && Denotes(t) == n {
      CanonicalIsDecimal(t.digits);
      assert t.digits[0] == 48 ==> t.digits == [48] && ValueOf(t.digits[..0]) == 0;
    }
    if n == 0 {
      assert Decimal(0) == [48];
    }
    if n < 0 {
      assert Decimal(-n) != [48];
    }
  }

  /** What BEP 3 asks beyond the grammar of the scanner: no zero in front of the digits of a negative number,
      and dictionary keys in strictly ascending order. */
  predicate Strict(t: Tree)
  {
    match t
    case Num(minus, digits) => minus && |digits| > 0 ==> digits[0] != 48
    case Str(_) => true
    case List(items) => StrictList(items)
    case Dict(entries) => StrictDict(entries)
  }

  predicate StrictList(ts: Trees)
  {
    ts.Cons? ==> Strict(ts.head) && StrictList(ts.tail)
  }

  predicate StrictDict(es: Entries)
  {
    es.Entry? ==> Strict(es.value) && StrictDict(es.rest) && (es.rest.Entry? ==> KeyLess(es.key, es.rest.key))
  }

  /** A value is canonical exactly when the scanner's grammar has it and it is strict. */
  lemma {:induction false} CanonicalIsStrict(t: Tree)
    ensures Canonical(t) <==> WellFormed(t) && Strict(t)
    decreases t
  {
    match t
    case Num(_, _) =>
    case Str(_) =>
    case List(items) => CanonicalIsStrictList(items);
    case Dict(entries) => CanonicalIsStrictDict(entries);
  }

  lemma {:induction false} CanonicalIsStrictList(ts: Trees)
    ensures CanonicalList(ts) <==> WellFormedList(ts) && StrictList(ts)
    decreases ts
  {
    if ts.Cons? {
      CanonicalIsStrict(ts.head);
      CanonicalIsStrictList(ts.tail);
    }
  }

  lemma {:induction false} CanonicalIsStrictDict(es: Entries)
    ensures CanonicalDict(es) <==> WellFormedDict(es) && StrictDict(es)
    decreases es
  {
    if es.Entry? {
      CanonicalIsStrict(es.value);
      CanonicalIsStrictDict(es.rest);
    }
  }

  /** A canonical value within the nesting and count limits is found whole in front of any tail. */
  lemma CanonicalThenTail(t: Tree, tail: seq<Byte>)
    requires Canonical(t) && Depth(t) <= MAX_DEPTH && Size(t) <= MAX_ITEMS
    ensures EndsAt(Unparse(t) + tail, |Unparse(t)|)
  {
    CanonicalIsStrict(t);
    ValueThenTail(t, tail);
  }

  // ------------------------------------------------------------ one tree per text

  /** Where two texts of one length stand, they are the same. */
  lemma SameText(data: seq<Byte>, pos: nat, a: seq<Byte>, b: seq<Byte>)
    requires At(data, pos, a) && At(data, pos, b) && |a| == |b|
    ensures a == b
  {
  }

  lemma StringParts(text: seq<Byte>, data: seq<Byte>, pos: nat)
    requires At(data, pos, UnparseString(text))
    ensures pos <= |data| && SkipDigits(data, pos) == pos + |Decimal(|text|)|
    ensures At(data, SkipDigits(data, pos) + 1, text)
  {
    var length := Decimal(|text|);
    DecimalCanonical(|text|);
    AtConcat(data, pos, length, [58] + text);
    AtConcat(data, pos + |length|, [58], text);
    AtFirst(data, pos + |length|, [58]);
    SkipAllDigits(data, pos, length);
  }

  lemma OneString(a: seq<Byte>, b: seq<Byte>, data: seq<Byte>, pos: nat)
    requires |a| <= MAX_STRING && |b| <= MAX_STRING
    requires At(data, pos, UnparseString(a)) && At(data, pos, UnparseString(b))
    ensures a == b
  {
    StringComplete(a, data, pos, 0);
    StringComplete(b, data, pos, 0);
    StringParts(a, data, pos);
    StringParts(b, data, pos);
    SameText(data, SkipDigits(data, pos) + 1, a, b);
  }

  lemma OneInteger(t: Tree, u: Tree, data: seq<Byte>, pos: nat)
    requires t.Num? && u.Num? && WellFormed(t) && WellFormed(u)
    requires At(data, pos, Unparse(t)) && At(data, pos, Unparse(u))
    ensures t == u
  {
    IntegerComplete(t.minus, t.digits, data, pos, 0);
    IntegerComplete(u.minus, u.digits, data, pos, 0);
    SameText(data, pos, Unparse(t), Unparse(u));
    SignRead(t, data, pos);
    SignRead(u, data, pos);
    assert At(data, pos + 1 + |Sign(t.minus)|, t.digits) && At(data, pos + 1 + |Sign(u.minus)|, u.digits);
    SameText(data, pos + 1 + |Sign(t.minus)|, t.digits, u.digits);
  }

  lemma SignRead(t: Tree, data: seq<Byte>, pos: nat)
    requires t.Num? && WellFormed(t) && At(data, pos, Unparse(t))
    ensures pos + 1 < |data| && (t.minus <==> data[pos + 1] == 45)
    ensures At(data, pos + 1 + |Sign(t.minus)|, t.digits)
    ensures |Unparse(t)| == 2 + |Sign(t.minus)| + |t.digits|
  {
    var s := Sign(t.minus);
    AtConcat(data, pos, [105], s + (t.digits + [101]));
    AtConcat(data, pos + 1, s, t.digits + [101]);
    AtConcat(data, pos + 1 + |s|, t.digits, [101]);
    AtFirst(data, pos + 1 + |s|, t.digits);
    if t.minus {
      AtFirst(data, pos + 1, s);
    }
  }

  /** At most one well-formed value begins at a position. */
  lemma {:induction false} OneTree(t: Tree, u: Tree, data: seq<Byte>, pos: nat)
    requires WellFormed(t) && WellFormed(u)
    requires At(data, pos, Unparse(t)) && At(data, pos, Unparse(u))
    ensures t == u
    decreases t
  {
    hide At, UnparseString;
    KindByte(t);
    KindByte(u);
    AtFirst(data, pos, Unparse(t));
    AtFirst(data, pos, Unparse(u));
    match t
    case Num(_, _) => OneInteger(t, u, data, pos);
    case Str(text) => OneString(text, u.text, data, pos);
    case List(items) =>
      AtConcat(data, pos, [108], UnparseList(items));
      AtConcat(data, pos, [108], UnparseList(u.items));
      OneTreeList(items, u.items, data, pos + 1);
    case Dict(entries) =>
      AtConcat(data, pos, [100], UnparseDict(entries));
      AtConcat(data, pos, [100], UnparseDict(u.entries));
      OneTreeDict(entries, u.entries, data, pos + 1);
  }

  /** A list goes on exactly when the byte is not its terminator. */
  lemma ListByte(ts: Trees, data: seq<Byte>, pos: nat)
    requires At(data, pos, UnparseList(ts))
    ensures pos < |data| && (ts.Nil? <==> data[pos] == 101)
  {
    if ts.Cons? {
      KindByte(ts.head);
    }
    AtFirst(data, pos, UnparseList(ts));
  }

  lemma DictByte(es: Entries, data: seq<Byte>, pos: nat)
    requires At(data, pos, UnparseDict(es))
    ensures pos < |data| && (es.End? <==> data[pos] == 101)
  {
    if es.Entry? {
      StringFirstByte(es.key);
    }
    AtFirst(data, pos, UnparseDict(es));
  }

  lemma {:induction false} OneTreeList(ts: Trees, us: Trees, data: seq<Byte>, pos: nat)
    requires WellFormedList(ts) && WellFormedList(us)
    requires At(data, pos, UnparseList(ts)) && At(data, pos, UnparseList(us))
    ensures ts == us
    decreases ts
  {
    hide At;
    ListByte(ts, data, pos);
    ListByte(us, data, pos);
    if ts.Cons? {
      AtConcat(data, pos, Unparse(ts.head), UnparseList(ts.tail));
      AtConcat(data, pos, Unparse(us.head), UnparseList(us.tail));
      OneTree(ts.head, us.head, data, pos);
      OneTreeList(ts.tail, us.tail, data, pos + |Unparse(ts.head)|);
    }
  }

  lemma {:induction false} OneTreeDict(es: Entries, fs: Entries, data: seq<Byte>, pos: nat)
    requires WellFormedDict(es) && WellFormedDict(fs)
    requires At(data, pos, UnparseDict(es)) && At(data, pos, UnparseDict(fs))
    ensures es == fs
    decreases es
  {
    hide At, UnparseString;
    DictByte(es, data, pos);
    DictByte(fs, data, pos);
    if es.Entry? {
      var key, other := UnparseString(es.key), UnparseString(fs.key);
      AtConcat(data, pos, key, Unparse(es.value) + UnparseDict(es.rest));
      AtConcat(data, pos, other, Unparse(fs.value) + UnparseDict(fs.rest));
      OneString(es.key, fs.key, data, pos);
      AtConcat(data, pos + |key|, Unparse(es.value), UnparseDict(es.rest));
      AtConcat(data, pos + |key|, Unparse(fs.value), UnparseDict(fs.rest));
      OneTree(es.value, fs.value, data, pos + |key|);
      OneTreeDict(es.rest, fs.rest, data, pos + |key| + |Unparse(es.value)|);
    }
  }

  /** Different well-formed values have different texts. */
  lemma UnparseInjective(t: Tree, u: Tree)
    requires WellFormed(t) && WellFormed(u) && Unparse(t) == Unparse(u)
    ensures t == u
  {
    assert Unparse(t)[0..0 + |Unparse(t)|] == Unparse(t);
    OneTree(t, u, Unparse(t), 0);
  }

  // ------------------------------------------------------------ where the scanner is laxer than BEP 3

  /** The text of a canonical value. */
  ghost predicate CanonicalText(text: seq<Byte>)
  {
    exists t :: Canonical(t) && Unparse(t) == text
  }

  /** What the scanner accepts is the text of exactly one value, and it is canonical if and only if that value
      is strict. */
  lemma AcceptedCanonicalExactly(data: seq<Byte>, n: nat) returns (t: Tree)
    requires EndsAt(data, n)
    ensures n <= |data| && Admitted(t) && Unparse(t) == data[..n]
    ensures forall u :: WellFormed(u) && Unparse(u) == data[..n] ==> u == t
    ensures CanonicalText(data[..n]) <==> Strict(t)
  {
    EndsExactly(data, n);
    t :| Admitted(t) && Unparse(t) == data[..n];
    forall u | WellFormed(u) && Unparse(u) == data[..n]
      ensures u == t
    {
      UnparseInjective(u, t);
    }
    CanonicalIsStrict(t);
    if c :| Canonical(c) && Unparse(c) == data[..n] {
      CanonicalIsStrict(c);
      UnparseInjective(c, t);
    }
  }

  /** A value that is not strict is accepted all the same, though its text is not canonical. */
  lemma LaxAccepted(t: Tree)
    requires Admitted(t) && !Strict(t)
    ensures EndsAt(Unparse(t), |Unparse(t)|) && !CanonicalText(Unparse(t))
  {
    ValueThenTail(t, []);
    assert Unparse(t) + [] == Unparse(t) && Unparse(t)[..|Unparse(t)|] == Unparse(t);
    var u := AcceptedCanonicalExactly(Unparse(t), |Unparse(t)|);
  }

  /** Instances: i-0e, i-00e, a dictionary with its keys out of order and one with a key twice. */
  lemma LaxInstances()
    ensures EndsAt([105, 45, 48, 101], 4) && !CanonicalText([105, 45, 48, 101])
    ensures EndsAt([105, 45, 48, 48, 101], 5) && !CanonicalText([105, 45, 48, 48, 101])
    ensures EndsAt(TwoKeys(98, 97), 14) && !CanonicalText(TwoKeys(98, 97))
    ensures EndsAt(TwoKeys(97, 97), 14) && !CanonicalText(TwoKeys(97, 97))
  {
    assert Unparse(Num(true, [48])) == [105, 45, 48, 101];
    LaxAccepted(Num(true, [48]));
    assert Unparse(Num(true, [48, 48])) == [105, 45, 48, 48, 101];
    LaxAccepted(Num(true, [48, 48]));
    TwoKeysLax(98, 97);
    TwoKeysLax(97, 97);
  }

  /** d1:?i1e1:?i1ee */
  function TwoKeys(a: Byte, b: Byte): seq<Byte>
  {
    [100, 49, 58, a, 105, 49, 101, 49, 58, b, 105, 49, 101, 101]
  }

  /** The dictionary with these two one-letter keys, each mapped to 1. */
  function TwoEntries(a: Byte, b: Byte): Tree
  {
    Dict(Entry([a], Num(false, [49]), Entry([b], Num(false, [49]), End)))
  }

  lemma OneByteText(a: Byte)
    ensures UnparseString([a]) == [49, 58, a]
  {
  }

  lemma TwoEntriesText(a: Byte, b: Byte)
    ensures Unparse(TwoEntries(a, b)) == TwoKeys(a, b)
  {
    var one := Num(false, [49]);
    var rest := Entry([b], one, End);
    OneByteText(a);
    OneByteText(b);
    assert Unparse(one) == [105, 49, 101];
    hide UnparseString;
    assert UnparseDict(rest) == [49, 58, b, 105, 49, 101, 101];
    assert UnparseDict(Entry([a], one, rest)) == [49, 58, a, 105, 49, 101] + UnparseDict(rest);
  }

  lemma TwoEntriesAdmitted(a: Byte, b: Byte)
    ensures Admitted(TwoEntries(a, b)) && (Strict(TwoEntries(a, b)) <==> a < b)
  {
    var one := Num(false, [49]);
    var rest := Entry([b], one, End);
    var all := Entry([a], one, rest);
    assert WellFormed(one) && Size(one) == 1 && Depth(one) == 0 && Strict(one);
    assert WellFormedDict(End) && SizeDict(End) == 0 && DepthDict(End) == 0 && StrictDict(End);
    assert WellFormedDict(rest) && SizeDict(rest) == 1 && DepthDict(rest) == 1 && StrictDict(rest);
    assert WellFormedDict(all) && SizeDict(all) == 2 && DepthDict(all) == 1;
    assert KeyLess([a], [b]) <==> a < b;
  }

  lemma TwoKeysLax(a: Byte, b: Byte)
    requires b <= a
    ensures EndsAt(TwoKeys(a, b), 14) && !CanonicalText(TwoKeys(a, b))
  {
    hide Admitted, Strict, TwoEntries;
    TwoEntriesText(a, b);
    TwoEntriesAdmitted(a, b);
    LaxAccepted(TwoEntries(a, b));
  }
}
