/** The power HAL's hint metadata: "attribute=value" pairs separated by semicolons, cut up with
    strtok_r (C11 section 7.24.5.8) into fixed-size buffers. */
module Metadata {
  import opened Decimal
  import opened Sequences

  const BUFFER_SIZE := 1024

  datatype Hint = Hint(hintId: int, state: int)

  datatype Token = Done | Token(text: string, rest: string)

  datatype Status = ParsingDone | ParsingContinue

  function SkipDelims(s: string): (t: string)
    ensures |t| <= |s| && (t != [] ==> t[0] != ';')
  {
    if s != [] && s[0] == ';' then SkipDelims(s[1..]) else s
  }

  /** One call of strtok_r: the next token and where the following call goes on. */
  function Strtok(s: string): (t: Token)
    ensures t.Token? ==> |t.rest| < |s| && t.text != [] && ';' !in t.text
  {
    var u := SkipDelims(s);
    var n := IndexOf(u, ';');
    if u == [] then Done else Token(u[..n], if n < |u| then u[n + 1..] else [])
  }

  /** The pieces repeated calls of strtok_r give. */
  function Tokens(s: string): seq<string>
    decreases |s|
  {
    var t := Strtok(s);
    if t.Done? then [] else [t.text] + Tokens(t.rest)
  }

  /** strlcpy into a buffer of n bytes, the last of them zero. */
  function Copied(s: string, n: nat): (r: string)
    requires n >= 1
    ensures r <= s && |r| == if |s| < n then |s| else n - 1
  {
    if |s| < n then s else s[..n - 1]
  }

  function Attribute(piece: string, size: nat): (r: string)
    requires size >= 1
    ensures '=' !in piece ==> r == []
    ensures '=' in piece ==>
      var n := IndexOf(piece, '='); r <= piece[..n] && |r| == if n < size then n else size - 1
  {
    var n := IndexOf(piece, '=');
    if n == |piece| then [] else Copied(piece, if n + 1 < size then n + 1 else size)
  }

  function ValueText(piece: string, size: nat): (r: string)
    requires size >= 1
    ensures '=' !in piece ==> r == []
  {
    var n := IndexOf(piece, '=');
    if n == |piece| then [] else Copied(piece[n + 1..], size)
  }

  function Updated(h: Hint, attribute: string, value: string): Hint {
    if value == [] then h
    else if attribute == "hint_id" then h.(hintId := Atoi(value))
    else if attribute == "state" then h.(state := Atoi(value))
    else h
  }

  function AfterPiece(h: Hint, piece: string): Hint {
    Updated(h, Attribute(piece, BUFFER_SIZE), ValueText(piece, BUFFER_SIZE))
  }

  function AfterPieces(h: Hint, pieces: seq<string>): Hint {
    if pieces == [] then h else AfterPiece(AfterPieces(h, pieces[..|pieces| - 1]), pieces[|pieces| - 1])
  }

  /** One step: the next piece, split at its first '='. */
  method ParseMetadata(cursor: string, attributeSize: nat, valueSize: nat)
    returns (status: Status, next: string, attribute: string, value: string)
    requires attributeSize >= 1 && valueSize >= 1
    ensures status == ParsingDone <==> Strtok(cursor) == Done
    ensures status == ParsingContinue ==>
      && next == Strtok(cursor).rest
      && attribute == Attribute(Strtok(cursor).text, attributeSize)
      && value == ValueText(Strtok(cursor).text, valueSize)
  {
    next, attribute, value := cursor, [], [];
    match Strtok(cursor) {
      case Done => status := ParsingDone;
      case Token(text, rest) =>
        next, status := rest, ParsingContinue;
        var delim := IndexOf(text, '=');
        if delim < |text| {
          var bytesToCopy := if delim + 1 > attributeSize then attributeSize else delim + 1;
          attribute := Copied(text, bytesToCopy);
          value := Copied(text[delim + 1..], valueSize);
        }
    }
  }

  method Update(given: Hint, attribute: string, value: string) returns (h: Hint)
    ensures h == Updated(given, attribute, value)
  {
    h := given;
    if attribute == "hint_id" {
      if |value| > 0 {
        h := h.(hintId := Atoi(value));
      }
    }
    if attribute == "state" {
      if |value| > 0 {
        h := h.(state := Atoi(value));
      }
    }
  }

  lemma TokensStep(cursor: string)
    requires Strtok(cursor).Token?
    ensures Tokens(cursor) == [Strtok(cursor).text] + Tokens(Strtok(cursor).rest)
  {}

  lemma AfterPiecesSnoc(h: Hint, pieces: seq<string>, piece: string)
    ensures AfterPieces(h, pieces + [piece]) == AfterPiece(AfterPieces(h, pieces), piece)
  {
    assert (pieces + [piece])[..|pieces|] == pieces;
  }

  lemma Regroup(a: seq<string>, x: string, b: seq<string>)
    ensures a + ([x] + b) == (a + [x]) + b
  {}

  lemma OneMorePiece(h: Hint, seen: seq<string>, cursor: string)
    requires Strtok(cursor).Token?
    ensures seen + Tokens(cursor) == (seen + [Strtok(cursor).text]) + Tokens(Strtok(cursor).rest)
    ensures AfterPieces(h, seen + [Strtok(cursor).text]) == AfterPiece(AfterPieces(h, seen), Strtok(cursor).text)
  {
    TokensStep(cursor);
    AfterPiecesSnoc(h, seen, Strtok(cursor).text);
    Regroup(seen, Strtok(cursor).text, Tokens(Strtok(cursor).rest));
  }

  method ParseHintMetadata(metadata: string, given: Hint) returns (rc: int, h: Hint)
    ensures rc == 0
    ensures h == AfterPieces(given, Tokens(metadata))
  {
    h := given;
    var cursor := metadata;
    ghost var seen: seq<string> := [];
    while true
      invariant Tokens(metadata) == seen + Tokens(cursor)
      invariant h == AfterPieces(given, seen)
      decreases |cursor|
    {
      var status, next, attribute, value := ParseMetadata(cursor, BUFFER_SIZE, BUFFER_SIZE);
      if status == ParsingDone {
        assert seen + [] == seen;
        return 0, h;
      }
      OneMorePiece(given, seen, cursor);
      h := Update(h, attribute, value);
      seen := seen + [Strtok(cursor).text];
      cursor := next;
    }
  }

  // ---------------------------------------------------------------- the pieces visited

  /** A string cut at every semicolon, empty pieces included. */
  function Split(s: string): seq<string>
    decreases |s|
  {
    var i := IndexOf(s, ';');
    if i == |s| then [s] else [s[..i]] + Split(s[i + 1..])
  }

  function NonEmpty(pieces: seq<string>): seq<string> {
    if pieces == [] then [] else (if pieces[0] == [] then [] else [pieces[0]]) + NonEmpty(pieces[1..])
  }

  /** Put together with semicolons again, the cut string is the original. */
  function Joined(pieces: seq<string>): string
    requires pieces != []
  {
    if |pieces| == 1 then pieces[0] else pieces[0] + [';'] + Joined(pieces[1..])
  }

  lemma SplitAt(s: string, i: nat)
    requires i == IndexOf(s, ';') < |s|
    ensures Split(s) == [s[..i]] + Split(s[i + 1..])
  {}

  lemma JoinedCons(p: string, rest: seq<string>)
    requires rest != []
    ensures Joined([p] + rest) == p + [';'] + Joined(rest)
  {
    assert ([p] + rest)[1..] == rest;
  }

  lemma {:induction false} SplitIsExact(s: string)
    ensures Split(s) != [] && Joined(Split(s)) == s && forall k :: 0 <= k < |Split(s)| ==> ';' !in Split(s)[k]
    decreases |s|
  {
    var i := IndexOf(s, ';');
    if i == |s| {
      assert Split(s) == [s];
    } else {
      var rest := s[i + 1..];
      SplitIsExact(rest);
      SplitAt(s, i);
      JoinedCons(s[..i], Split(rest));
      assert s == s[..i] + [';'] + rest;
    }
  }

  lemma NonEmptyCons(p: string, rest: seq<string>)
    ensures NonEmpty([p] + rest) == (if p == [] then [] else [p]) + NonEmpty(rest)
  {
    assert ([p] + rest)[1..] == rest;
  }

  lemma NoText()
    ensures Tokens([]) == [] && NonEmpty(Split([])) == []
  {
    NonEmptyCons([], []);
    assert [[]] + [] == Split([]);
  }

  lemma LeadingDelim(s: string)
    requires s != [] && s[0] == ';'
    ensures Tokens(s) == Tokens(s[1..]) && Split(s) == [[]] + Split(s[1..])
  {
    IndexUnique(s, ';', 0);
    SplitAt(s, 0);
    assert s[..0] == [];
    assert Strtok(s) == Strtok(s[1..]);
  }

  lemma FirstPiece(s: string, i: nat)
    requires s != [] && s[0] != ';' && i == IndexOf(s, ';') < |s|
    ensures Tokens(s) == [s[..i]] + Tokens(s[i + 1..]) && Split(s) == [s[..i]] + Split(s[i + 1..])
  {
    assert Strtok(s) == Token(s[..i], s[i + 1..]);
  }

  lemma LastPiece(s: string)
    requires s != [] && IndexOf(s, ';') == |s|
    ensures Tokens(s) == [s] && NonEmpty(Split(s)) == [s]
  {
    assert s[..|s|] == s;
    assert Strtok(s) == Token(s, []);
    NoText();
    NonEmptyCons(s, []);
    assert [s] + [] == Split(s);
  }

  /** The loop visits exactly the non-empty pieces, in order. */
  lemma {:induction false} TokensAreNonEmptyPieces(s: string)
    ensures Tokens(s) == NonEmpty(Split(s))
    decreases |s|
  {
    var i := IndexOf(s, ';');
    if s == [] {
      NoText();
    } else if s[0] == ';' {
      LeadingDelim(s);
      TokensAreNonEmptyPieces(s[1..]);
      NonEmptyCons([], Split(s[1..]));
    } else if i < |s| {
      FirstPiece(s, i);
      TokensAreNonEmptyPieces(s[i + 1..]);
      NonEmptyCons(s[..i], Split(s[i + 1..]));
    } else {
      LastPiece(s);
    }
  }

  // ---------------------------------------------------------------- the last value wins

  /** The value a piece gives for a key, empty when it gives none. */
  function Given(piece: string, key: string): string {
    if Attribute(piece, BUFFER_SIZE) == key then ValueText(piece, BUFFER_SIZE) else []
  }

  /** The last non-empty value the pieces give for a key. */
  function LastGiven(pieces: seq<string>, key: string): string {
    if pieces == [] then []
    else
      var v := Given(pieces[|pieces| - 1], key);
      if v != [] then v else LastGiven(pieces[..|pieces| - 1], key)
  }

  function Chosen(pieces: seq<string>, key: string, otherwise: int): int {
    if LastGiven(pieces, key) == [] then otherwise else Atoi(LastGiven(pieces, key))
  }

  lemma KeysDiffer()
    ensures "hint_id" != "state"
  {
    assert |"hint_id"| == 7 && |"state"| == 5;
  }

  lemma {:induction false} LastValueWins(h: Hint, pieces: seq<string>)
    ensures AfterPieces(h, pieces) == Hint(Chosen(pieces, "hint_id", h.hintId), Chosen(pieces, "state", h.state))
  {
    KeysDiffer();
    if pieces != [] { LastValueWins(h, pieces[..|pieces| - 1]); }
  }

  /** Whatever the text, the hint id and the state come out as the last non-empty value its pieces
      give for each, and as they were when there is none. */
  lemma ParsedIsLastGiven(h: Hint, metadata: string)
    ensures AfterPieces(h, Tokens(metadata))
         == Hint(Chosen(NonEmpty(Split(metadata)), "hint_id", h.hintId),
                 Chosen(NonEmpty(Split(metadata)), "state", h.state))
  {
    TokensAreNonEmptyPieces(metadata);
    LastValueWins(h, Tokens(metadata));
  }

  // ---------------------------------------------------------------- reading back a printed hint

  function Pair(key: string, n: int): string {
    key + ['='] + Print(n)
  }

  function PrintHint(h: Hint): string {
    Pair("hint_id", h.hintId) + [';'] + Pair("state", h.state)
  }

  predicate Plain(s: string) {
    '=' !in s && ';' !in s
  }

  lemma {:induction false} DigitsPlain(n: nat)
    ensures Plain(Digits(n))
  {
    if n >= 10 { DigitsPlain(n / 10); }
  }

  lemma PrintPlain(n: int)
    ensures Plain(Print(n))
  {
    if n < 0 { DigitsPlain(-n); } else { DigitsPlain(n); }
  }

  lemma PairSplits(key: string, n: int32)
    requires Plain(key) && |key| < BUFFER_SIZE
    ensures ';' !in Pair(key, n) && Pair(key, n) != []
    ensures Attribute(Pair(key, n), BUFFER_SIZE) == key && ValueText(Pair(key, n), BUFFER_SIZE) == Print(n)
  {
    var p := Pair(key, n);
    PrintPlain(n);
    PrintLength(n);
    assert p[..|key|] == key && p[|key| + 1..] == Print(n);
    IndexUnique(p, '=', |key|);
  }

  lemma AfterTwo(given: Hint, a: string, b: string)
    ensures AfterPieces(given, [a, b]) == AfterPiece(AfterPiece(given, a), b)
  {
    assert [a, b][..1] == [a] && [a][..0] == [];
    assert AfterPieces(given, [a]) == AfterPiece(given, a);
  }

  lemma PrintedTokens(a: string, b: string)
    requires ';' !in a && ';' !in b && a != [] && b != []
    ensures Tokens(a + [';'] + b) == [a, b]
  {
    var s := a + [';'] + b;
    assert s[..|a|] == a && s[|a| + 1..] == b;
    IndexUnique(s, ';', |a|);
    IndexUnique(b, ';', |b|);
    assert b[..|b|] == b;
    assert Tokens(b) == [b] by {
      assert Strtok(b) == Token(b, []);
      assert Tokens([]) == [];
    }
    assert Strtok(s) == Token(a, b);
  }

  lemma PairSets(given: Hint, n: int32)
    ensures AfterPiece(given, Pair("hint_id", n)) == given.(hintId := n)
    ensures AfterPiece(given, Pair("state", n)) == given.(state := n)
  {
    PairSplits("hint_id", n);
    PairSplits("state", n);
    KeysDiffer();
    AtoiPrinted(n);
  }

  lemma PrintedHintTokens(hintId: int32, state: int32)
    ensures Tokens(PrintHint(Hint(hintId, state))) == [Pair("hint_id", hintId), Pair("state", state)]
  {
    PairSplits("hint_id", hintId);
    PairSplits("state", state);
    PrintedTokens(Pair("hint_id", hintId), Pair("state", state));
  }

  /** Parsing a printed hint gives it back. */
  lemma PrintedHintParses(h: Hint, given: Hint)
    requires -INT32_MAX - 1 <= h.hintId <= INT32_MAX && -INT32_MAX - 1 <= h.state <= INT32_MAX
    ensures AfterPieces(given, Tokens(PrintHint(h))) == h
  {
    PrintedHintTokens(h.hintId, h.state);
    AfterTwo(given, Pair("hint_id", h.hintId), Pair("state", h.state));
    PairSets(given, h.hintId);
    PairSets(given.(hintId := h.hintId), h.state);
  }

  /** A value that is not a number counts as 0. */
  lemma NotANumberIsZero(given: Hint, c: char)
    requires !IsDigit(c) && c != ';' && c != '=' && !IsSpace(c) && c != '+' && c != '-'
    ensures AfterPieces(given, ["state=" + [c]]) == given.(state := 0)
  {
    var p := "state=" + [c];
    assert p[..5] == "state" && p[6..] == [c];
    IndexUnique(p, '=', 5);
    KeysDiffer();
    assert [p][..0] == [];
  }
}
