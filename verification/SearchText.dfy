/** Search text: words joined by single spaces within a byte budget, and the document of a torrent. */
module SearchText {
  import opened Net

  /** A character after NFKC: alphanumeric or not, which Unicode decides, and its code point. */
  datatype Char = Word(code: nat) | Gap(code: nat)

  const SPACE := Gap(32)

  function Utf8Len(c: Char): (n: nat)
    ensures 1 <= n <= 4 && (n <= 1 <==> c.code <= 127) && (n <= 2 <==> c.code <= 2047) && (n <= 3 <==> c.code <= 65535)
  {
    if c.code < 0x80 then 1 else if c.code < 0x800 then 2 else if c.code < 0x1_0000 then 3 else 4
  }

  function Size(s: seq<Char>): nat
  {
    if |s| == 0 then 0 else Size(s[..|s| - 1]) + Utf8Len(s[|s| - 1])
  }

  /** split(|c| !c.is_alphanumeric()): the runs between separators, empty ones included. */
  function Split(s: seq<Char>): (pieces: seq<seq<Char>>)
    ensures |pieces| > 0
  {
    if |s| == 0 then [[]] else Grow(Split(s[..|s| - 1]), s[|s| - 1])
  }

  function Grow(pieces: seq<seq<Char>>, c: Char): seq<seq<Char>>
    requires |pieces| > 0
  {
    var last := |pieces| - 1;
    if c.Word? then pieces[..last] + [pieces[last] + [c]] else pieces + [[]]
  }

  /** filter(nonempty).join(" ") */
  function JoinWords(pieces: seq<seq<Char>>): seq<Char>
  {
    if |pieces| == 0 then []
    else
      var front, last := JoinWords(pieces[..|pieces| - 1]), pieces[|pieces| - 1];
      if last == [] then front else if front == [] then last else front + [SPACE] + last
  }

  function SplitAll(fields: seq<seq<Char>>): seq<seq<Char>>
  {
    if |fields| == 0 then [] else SplitAll(fields[..|fields| - 1]) + Split(fields[|fields| - 1])
  }

  /** All fields split into words, empty ones dropped, joined by single spaces. */
  function Normal(fields: seq<seq<Char>>): seq<Char>
  {
    JoinWords(SplitAll(fields))
  }

  // ------------------------------------------------------------ one character at a time

  lemma {:induction false} SizeConcat(a: seq<Char>, b: seq<Char>)
    ensures Size(a + b) == Size(a) + Size(b)
  {
    if |b| == 0 {
      assert a + b == a;
    } else {
      SizeConcat(a, b[..|b| - 1]);
      assert (a + b)[..|a + b| - 1] == a + b[..|b| - 1];
    }
  }

  function Last(pieces: seq<seq<Char>>): seq<Char>
    requires |pieces| > 0
  {
    pieces[|pieces| - 1]
  }

  /** What pushing c does to the text: nothing, a character, or a space and a character. */
  lemma GrowText(pieces: seq<seq<Char>>, c: Char)
    requires |pieces| > 0
    ensures var text := JoinWords(pieces);
            JoinWords(Grow(pieces, c))
            == if c.Gap? then text else if Last(pieces) == [] && text != [] then text + [SPACE, c] else text + [c]
    ensures Last(Grow(pieces, c)) == [] <==> c.Gap?
    ensures JoinWords(pieces) == [] ==> Last(pieces) == []
  {
    hide JoinWords;
    if c.Gap? {
      JoinLast(pieces, []);
    } else {
      GrowWord(pieces, c);
    }
    LastEmpty(pieces);
  }

  lemma LastEmpty(pieces: seq<seq<Char>>)
    requires |pieces| > 0
    ensures JoinWords(pieces) == [] ==> Last(pieces) == []
  {
    hide JoinWords;
    var front, word := pieces[..|pieces| - 1], Last(pieces);
    assert pieces == front + [word];
    JoinLast(front, word);
  }

  lemma GrowWord(pieces: seq<seq<Char>>, c: Char)
    requires |pieces| > 0 && c.Word?
    ensures var text := JoinWords(pieces);
            JoinWords(Grow(pieces, c)) == if Last(pieces) == [] && text != [] then text + [SPACE, c] else text + [c]
  {
    hide JoinWords;
    var last := |pieces| - 1;
    WordGrows(pieces[..last], pieces[last], c);
    FrontAndLast(pieces);
  }

  lemma FrontAndLast(pieces: seq<seq<Char>>)
    requires |pieces| > 0
    ensures pieces[..|pieces| - 1] + [Last(pieces)] == pieces
  {
  }

  lemma WordGrows(front: seq<seq<Char>>, word: seq<Char>, c: Char)
    ensures var text := JoinWords(front + [word]);
            JoinWords(front + [word + [c]]) == if word == [] && text != [] then text + [SPACE, c] else text + [c]
  {
    hide JoinWords;
    JoinLast(front, word);
    JoinLast(front, word + [c]);
    var text := JoinWords(front);
    if word == [] {
      assert word + [c] == [c];
      assert text != [] ==> text + [SPACE] + [c] == text + [SPACE, c];
      assert text == [] ==> text + [c] == [c];
    } else {
      assert text != [] ==> text + [SPACE] + (word + [c]) == text + [SPACE] + word + [c];
    }
  }

  lemma JoinLast(front: seq<seq<Char>>, word: seq<Char>)
    ensures var text := JoinWords(front);
            JoinWords(front + [word]) == if word == [] then text else if text == [] then word else text + [SPACE] + word
  {
    assert (front + [word])[..|front|] == front;
  }

  lemma NewField(pieces: seq<seq<Char>>)
    ensures JoinWords(pieces + [[]]) == JoinWords(pieces)
  {
    JoinLast(pieces, []);
  }

  /** The pieces seen so far while a field is being appended. */
  function SeenPieces(pieces: seq<seq<Char>>, input: seq<Char>): (r: seq<seq<Char>>)
    ensures |r| > 0
  {
    pieces + Split(input)
  }

  lemma SeenStep(pieces: seq<seq<Char>>, input: seq<Char>, i: nat)
    requires i < |input|
    ensures SeenPieces(pieces, input[..i + 1]) == Grow(SeenPieces(pieces, input[..i]), input[i])
  {
    assert input[..i + 1][..i] == input[..i];
    var s := Split(input[..i]);
    assert (pieces + s)[..|pieces| + |s| - 1] == pieces + s[..|s| - 1];
  }

  /** Text never shrinks while a field is being appended. */
  lemma {:induction false} SeenGrows(pieces: seq<seq<Char>>, input: seq<Char>, i: nat)
    requires i <= |input|
    ensures Size(JoinWords(SeenPieces(pieces, input[..i]))) <= Size(JoinWords(SeenPieces(pieces, input)))
    decreases |input| - i
  {
    if i == |input| {
      assert input[..i] == input;
    } else {
      SeenGrows(pieces, input, i + 1);
      SeenStep(pieces, input, i);
      var seen := SeenPieces(pieces, input[..i]);
      GrowText(seen, input[i]);
      SizeConcat(JoinWords(seen), [SPACE, input[i]]);
      SizeConcat(JoinWords(seen), [input[i]]);
    }
  }

  lemma PushSizes(text: seq<Char>, c: Char)
    ensures Size(text + [c]) == Size(text) + Utf8Len(c)
    ensures Size(text + [SPACE, c]) == Size(text) + 1 + Utf8Len(c)
  {
    SizeConcat(text, [c]);
    SizeConcat(text, [SPACE, c]);
    assert [SPACE, c][..1] == [SPACE];
    assert [SPACE][..0] == [] && [c][..0] == [];
    assert Size([SPACE]) == 1;
  }

  // ------------------------------------------------------------ the normal form, character by character

  /** Without fields there is no text, and a field without characters adds none. */
  lemma NormalNewField(fields: seq<seq<Char>>)
    ensures Normal([]) == [] && Normal(fields + [[]]) == Normal(fields)
  {
    assert (fields + [[]])[..|fields|] == fields;
    NewField(SplitAll(fields));
  }

  /** One more character in the last field: a separator adds nothing; any other character is added as it is, with one
      space before it if it begins a word that is not the first. */
  lemma NormalByChar(fields: seq<seq<Char>>, field: seq<Char>, c: Char)
    ensures var text := Normal(fields + [field]);
            Normal(fields + [field + [c]])
            == if c.Gap? then text
               else if text != [] && (field == [] || field[|field| - 1].Gap?) then text + [Gap(32), c]
               else text + [c]
  {
    hide JoinWords, SeenPieces, Grow, SplitAll, Last;
    var pieces, longer := SplitAll(fields), field + [c];
    SplitAllLast(fields, field);
    SplitAllLast(fields, longer);
    SeenStep(pieces, longer, |field|);
    assert longer[..|field|] == field && longer[..|field| + 1] == longer;
    GrowText(SeenPieces(pieces, field), c);
    WordEnds(pieces, field);
  }

  /** A new word begins after a separator, or at the start of a field. */
  lemma WordEnds(pieces: seq<seq<Char>>, field: seq<Char>)
    ensures Last(SeenPieces(pieces, field)) == [] <==> field == [] || field[|field| - 1].Gap?
  {
    hide JoinWords, SeenPieces, Grow, Last;
    if field == [] {
      StartField(pieces, field);
      assert field[..0] == field;
    } else {
      var init := field[..|field| - 1];
      SeenStep(pieces, field, |init|);
      assert field[..|init| + 1] == field;
      GrowText(SeenPieces(pieces, init), field[|init|]);
    }
  }

  lemma SplitAllLast(fields: seq<seq<Char>>, field: seq<Char>)
    ensures SplitAll(fields + [field]) == SeenPieces(SplitAll(fields), field)
  {
    assert (fields + [field])[..|fields|] == fields;
  }

  /** The String that append_search_text grows. */
  class Output {
    var text: seq<Char>

    constructor ()
      ensures text == []
    {
      text := [];
    }

    /** append_search_text: true exactly when the words so far and those of the new field, joined, fit the
        budget; then they are the text. The text never exceeds the budget. */
    method AppendSearchText(input: seq<Char>, budget: nat, ghost pieces: seq<seq<Char>>) returns (ok: bool)
      requires text == JoinWords(pieces) && Size(text) <= budget
      modifies this
      ensures ok <==> Size(JoinWords(SeenPieces(pieces, input))) <= budget
      ensures ok ==> text == JoinWords(SeenPieces(pieces, input))
      ensures Size(text) <= budget
    {
      hide JoinWords, Size, SeenPieces, Grow;
      var separator := text != [];
      StartField(pieces, input);
      var i := 0;
      while i < |input|
        invariant 0 <= i <= |input|
        invariant text == JoinWords(SeenPieces(pieces, input[..i])) && Size(text) <= budget
        invariant separator <==> text != [] && Last(SeenPieces(pieces, input[..i])) == []
      {
        var c := input[i];
        ghost var seen := SeenPieces(pieces, input[..i]);
        SeenStep(pieces, input, i);
        GrowText(seen, c);
        PushSizes(text, c);
        if c.Gap? {
          separator := text != [];
          i := i + 1;
          continue;
        }
        var size := Utf8Len(c) + if separator then 1 else 0;
        if Size(text) + size > budget {
          SeenGrows(pieces, input, i + 1);
          return false;
        }
        if separator {
          text := text + [SPACE];
          separator := false;
        }
        text := text + [c];
        assert text == JoinWords(Grow(seen, c));
        i := i + 1;
      }
      assert input[..|input|] == input;
      ok := true;
    }
  }

  lemma StartField(pieces: seq<seq<Char>>, input: seq<Char>)
    ensures JoinWords(SeenPieces(pieces, input[..0])) == JoinWords(pieces) && Last(SeenPieces(pieces, input[..0])) == []
  {
    assert SeenPieces(pieces, input[..0]) == pieces + [[]];
    NewField(pieces);
  }

  // ------------------------------------------------------------ several fields

  /** Folding append_search_text over fields gives their normal form, or says it does not fit. */
  method AppendAll(fields: seq<seq<Char>>, budget: nat) returns (ok: bool, text: seq<Char>)
    ensures ok <==> Size(Normal(fields)) <= budget
    ensures ok ==> text == Normal(fields)
    ensures Size(text) <= budget
  {
    hide JoinWords, Size, Split;
    var output := new Output();
    EmptyText();
    var i := 0;
    while i < |fields|
      invariant 0 <= i <= |fields| && output.text == Normal(fields[..i]) && Size(output.text) <= budget
      invariant fresh(output)
    {
      ok := output.AppendSearchText(fields[i], budget, SplitAll(fields[..i]));
      assert fields[..i + 1][..i] == fields[..i];
      assert SeenPieces(SplitAll(fields[..i]), fields[i]) == SplitAll(fields[..i + 1]);
      if !ok {
        NormalGrows(fields, i + 1);
        return false, output.text;
      }
      i := i + 1;
    }
    assert fields[..|fields|] == fields;
    return true, output.text;
  }

  lemma EmptyText()
    ensures JoinWords([]) == [] && Size([]) == 0
  {
  }

  lemma {:induction false} NormalGrows(fields: seq<seq<Char>>, i: nat)
    requires i <= |fields|
    ensures Size(Normal(fields[..i])) <= Size(Normal(fields))
    decreases |fields| - i
  {
    hide JoinWords, Size, Split;
    if i == |fields| {
      assert fields[..i] == fields;
    } else {
      NormalGrows(fields, i + 1);
      assert fields[..i + 1][..i] == fields[..i];
      var pieces := SplitAll(fields[..i]);
      assert SplitAll(fields[..i + 1]) == SeenPieces(pieces, fields[i]);
      StartField(pieces, fields[i]);
      SeenGrows(pieces, fields[i], 0);
    }
  }

  // ------------------------------------------------------------ documents

  /** A stored string: its length in bytes, and its characters after NFKC. */
  datatype Text = Text(octets: nat, chars: seq<Char>)

  datatype Doc = Doc(name: seq<Char>, paths: seq<Char>)

  datatype Built = Built(doc: Option<Doc>) | TooLarge

  const HASH_LEN: nat := 40
  const OVERHEAD: nat := 128

  function Chars(texts: seq<Text>): seq<seq<Char>>
  {
    seq(|texts|, i requires 0 <= i < |texts| => texts[i].chars)
  }

  /** The name counts only once the metadata is complete. */
  function NameField(complete: bool, name: Option<Text>): Option<Text>
  {
    if complete then name else None
  }

  function NameText(name: Option<Text>): seq<Char>
  {
    if name.Some? then Normal([name.value.chars]) else []
  }

  predicate WithinOctets(texts: seq<Text>, budget: nat)
  {
    forall i | 0 <= i < |texts| :: texts[i].octets <= budget
  }

  /** The document of a torrent: name and paths in normal form, present when there is a name or a file. */
  function Document(complete: bool, name: Option<Text>, paths: seq<Text>, budget: nat): Built
  {
    var field := NameField(complete, name);
    if (field.Some? && field.value.octets > budget) || budget < HASH_LEN + OVERHEAD || !WithinOctets(paths, budget) then TooLarge
    else if Size(NameText(field)) + Size(Normal(Chars(paths))) > budget - (HASH_LEN + OVERHEAD) then TooLarge
    else Built(if field.Some? || paths != [] then Some(Doc(NameText(field), Normal(Chars(paths)))) else None)
  }

  /** The bytes a document takes in an insert. */
  function DocSize(d: Doc): nat
  {
    HASH_LEN + Size(d.name) + Size(d.paths) + OVERHEAD
  }

  /** There is a document when the metadata is complete and has a name, or when there is a file: the name, only once
      it is complete, and the paths, in normal form. It is too large exactly when the name or a path has more bytes
      than the budget, or name, paths and 168 more bytes exceed it. */
  lemma DocumentExact(complete: bool, name: Option<Text>, paths: seq<Text>, budget: nat)
    ensures var b := Document(complete, name, paths, budget);
            var named := complete && name.Some?;
            var nameText := if complete && name.Some? then Normal([name.value.chars]) else [];
            var fields := seq(|paths|, i requires 0 <= i < |paths| => paths[i].chars);
            && (b.TooLarge? <==> || (named && name.value.octets > budget)
                                 || (exists i :: 0 <= i < |paths| && paths[i].octets > budget)
                                 || Size(nameText) + Size(Normal(fields)) + 168 > budget)
            && (b.Built? && b.doc.Some? ==> b.doc.value == Doc(nameText, Normal(fields)))
            && (b.Built? ==> (b.doc.Some? <==> named || paths != []))
  {
    hide Normal, Size;
    assert Chars(paths) == seq(|paths|, i requires 0 <= i < |paths| => paths[i].chars);
  }

  /** No document exceeds the limit it was built under. */
  lemma DocumentFits(complete: bool, name: Option<Text>, paths: seq<Text>, budget: nat)
    ensures var b := Document(complete, name, paths, budget);
            b.Built? && b.doc.Some? ==> DocSize(b.doc.value) <= budget
  {
  }

  /** search_document: the remaining budget for the paths never goes below zero. */
  method SearchDocument(complete: bool, name: Option<Text>, paths: seq<Text>, budget: nat) returns (r: Built)
    ensures r == Document(complete, name, paths, budget)
  {
    hide Size, JoinWords, SplitAll;
    var rawBytes := if complete && name.Some? then name.value.octets else 0;
    if rawBytes > budget {
      return TooLarge;
    }
    var rawName := if complete && name.Some? && name.value.octets <= budget then name else None;
    var present := rawName.Some?;
    if budget < HASH_LEN + OVERHEAD {
      return TooLarge;
    }
    var contentBudget := budget - (HASH_LEN + OVERHEAD);
    EmptyNormal();
    var ok, nameText := AppendAll(if rawName.Some? then [rawName.value.chars] else [], contentBudget);
    if !ok {
      return TooLarge;
    }
    var pathBudget: nat := contentBudget - Size(nameText);
    var output := new Output();
    EmptyText();
    assert Chars(paths[..0]) == [];
    var i := 0;
    while i < |paths|
      invariant 0 <= i <= |paths| && fresh(output)
      invariant WithinOctets(paths[..i], budget)
      invariant output.text == Normal(Chars(paths[..i])) && Size(output.text) <= pathBudget
      invariant present <==> rawName.Some? || i > 0
    {
      present := true;
      if paths[i].octets > budget {
        return TooLarge;
      }
      assert WithinOctets(paths[..i + 1], budget) by {
        assert paths[..i + 1] == paths[..i] + [paths[i]];
      }
      var fields := Chars(paths[..i + 1]);
      assert fields[..i] == Chars(paths[..i]);
      ok := output.AppendSearchText(paths[i].chars, pathBudget, SplitAll(fields[..i]));
      SplitAllStep(fields, i);
      if !ok {
        assert Chars(paths)[..i + 1] == fields;
        NormalGrows(Chars(paths), i + 1);
        return TooLarge;
      }
      i := i + 1;
    }
    assert paths[..|paths|] == paths;
    return Built(if present then Some(Doc(nameText, output.text)) else None);
  }

  lemma SplitAllStep(fields: seq<seq<Char>>, i: nat)
    requires |fields| == i + 1
    ensures SeenPieces(SplitAll(fields[..i]), fields[i]) == SplitAll(fields)
  {
    assert fields[..|fields| - 1] == fields[..i];
  }

  lemma EmptyNormal()
    ensures Normal([]) == [] && Size([]) == 0
  {
  }
}
