/**
 The regular-expression matcher of grep (user/grep.c) against a declarative
 meaning of patterns. Patterns and texts are the characters before the
 terminating NUL.
 */
module Grep {
  /** What a pattern is made of: c*, a single character or dot, and a final dollar. */
  datatype Item = Star(c: char) | One(c: char) | AtEnd

  function Parse(re: string): seq<Item>
    decreases |re|
  {
    if re == [] then []
    else if |re| > 1 && re[1] == '*' then [Star(re[0])] + Parse(re[2..])
    else if re == "$" then [AtEnd]
    else [One(re[0])] + Parse(re[1..])
  }

  predicate Fits(c: char, x: char) {
    c == '.' || c == x
  }

  /** The piece of text is one that the item stands for. */
  predicate Stands(item: Item, piece: string) {
    match item
    case Star(c) => forall i | 0 <= i < |piece| :: Fits(c, piece[i])
    case One(c) => |piece| == 1 && Fits(c, piece[0])
    case AtEnd => piece == []
  }

  function Concat(pieces: seq<string>): string {
    if pieces == [] then [] else pieces[0] + Concat(pieces[1..])
  }

  predicate Decomposes(items: seq<Item>, pieces: seq<string>) {
    |pieces| == |items| && forall i | 0 <= i < |items| :: Stands(items[i], pieces[i])
  }

  predicate EndsAnchored(items: seq<Item>) {
    items != [] && items[|items| - 1] == AtEnd
  }

  /** The pieces spell out the first characters of the text, all of them after a final dollar. */
  predicate Spells(items: seq<Item>, pieces: seq<string>, text: string) {
    && Decomposes(items, pieces) && Concat(pieces) <= text
    && (EndsAnchored(items) ==> Concat(pieces) == text)
  }

  /** The items match at the beginning of the text. */
  ghost predicate Here(items: seq<Item>, text: string) {
    exists pieces :: Spells(items, pieces, text)
  }

  /** Text positions i to j hold a string that decomposes into the items. */
  ghost predicate FoundAt(items: seq<Item>, text: string, i: nat, j: nat) {
    && i <= j <= |text| && (EndsAnchored(items) ==> j == |text|)
    && exists pieces :: Decomposes(items, pieces) && Concat(pieces) == text[i..j]
  }

  ghost predicate FoundFrom(items: seq<Item>, text: string, i: nat) {
    exists j: nat :: FoundAt(items, text, i, j)
  }

  /** The meaning of a whole pattern: somewhere in the text, or at its start after a caret. */
  ghost predicate Found(re: string, text: string) {
    if re != [] && re[0] == '^' then FoundFrom(Parse(re[1..]), text, 0)
    else exists i: nat :: FoundFrom(Parse(re), text, i)
  }

  // ---- matching at the beginning, item by item ----

  lemma HereNothing(text: string)
    ensures Here([], text)
  {
    assert Spells([], [], text);
  }

  lemma HereEnd(text: string)
    ensures Here([AtEnd], text) <==> text == []
  {
    if text == [] {
      assert Concat([[]]) == [] + Concat([]);
      assert Spells([AtEnd], [[]], text);
    }
    if Here([AtEnd], text) {
      var pieces :| Spells([AtEnd], pieces, text);
      assert Stands([AtEnd][0], pieces[0]) && pieces[1..] == [];
      assert Concat(pieces) == pieces[0] + Concat(pieces[1..]) == [];
    }
  }

  /** A first piece in front of a match of the rest. */
  lemma SpellsMore(item: Item, rest: seq<Item>, piece: string, pieces: seq<string>, text: string)
    requires item != AtEnd && |piece| <= |text| && piece == text[..|piece|]
    ensures Spells([item] + rest, [piece] + pieces, text)
            <==> Stands(item, piece) && Spells(rest, pieces, text[|piece|..])
  {
    DecomposesMore(item, rest, piece, pieces);
    assert ([piece] + pieces)[1..] == pieces;
    PrefixRest(piece, Concat(pieces), text);
    assert EndsAnchored([item] + rest) <==> EndsAnchored(rest);
  }

  lemma DecomposesMore(item: Item, rest: seq<Item>, piece: string, pieces: seq<string>)
    ensures Decomposes([item] + rest, [piece] + pieces) <==> Stands(item, piece) && Decomposes(rest, pieces)
  {
    var items, all := [item] + rest, [piece] + pieces;
    if Decomposes(items, all) {
      assert Stands(items[0], all[0]);
      forall i | 0 <= i < |rest|
        ensures Stands(rest[i], pieces[i])
      {
        assert Stands(items[i + 1], all[i + 1]);
      }
    }
  }

  lemma PrefixRest(a: string, b: string, text: string)
    requires |a| <= |text| && a == text[..|a|]
    ensures a + b <= text <==> b <= text[|a|..]
    ensures a + b == text <==> b == text[|a|..]
  {
    assert text == a + text[|a|..];
    if a + b <= text {
      assert b == (a + b)[|a|..] == text[|a|..][..|b|];
    }
    if a + b == text {
      assert b == text[|a|..];
    }
  }

  /** An item other than the final dollar matches a first piece, and the rest matches after it. */
  lemma HereItem(item: Item, rest: seq<Item>, text: string)
    requires item != AtEnd
    ensures Here([item] + rest, text)
            <==> exists k: nat :: k <= |text| && Stands(item, text[..k]) && Here(rest, text[k..])
  {
    if Here([item] + rest, text) {
      var all :| Spells([item] + rest, all, text);
      var piece, pieces := all[0], all[1..];
      assert all == [piece] + pieces;
      assert piece + Concat(pieces) == Concat(all) <= text;
      SpellsMore(item, rest, piece, pieces, text);
      assert Stands(item, text[..|piece|]) && Here(rest, text[|piece|..]);
    }
    if k: nat :| k <= |text| && Stands(item, text[..k]) && Here(rest, text[k..]) {
      var pieces :| Spells(rest, pieces, text[k..]);
      SpellsMore(item, rest, text[..k], pieces, text);
    }
  }

  /** Found is a match at the beginning of some suffix of the text. */
  lemma FoundIsHere(items: seq<Item>, text: string, i: nat)
    requires i <= |text|
    ensures Here(items, text[i..]) <==> FoundFrom(items, text, i)
  {
    if Here(items, text[i..]) {
      var pieces :| Spells(items, pieces, text[i..]);
      var j := i + |Concat(pieces)|;
      assert Concat(pieces) == text[i..][..j - i] == text[i..j];
      assert FoundAt(items, text, i, j);
    }
    if j: nat :| FoundAt(items, text, i, j) {
      var pieces :| Decomposes(items, pieces) && Concat(pieces) == text[i..j];
      assert text[i..] == text[i..j] + text[j..];
      assert Spells(items, pieces, text[i..]);
    }
  }

  // ---- the matcher ----

  /** matchhere: does the pattern match at the beginning of the text? */
  method MatchHere(re: string, text: string) returns (b: bool)
    ensures b <==> Here(Parse(re), text)
    decreases |re|, 0
  {
    if re == [] {
      HereNothing(text);
      return true;
    }
    if |re| > 1 && re[1] == '*' {
      b := MatchStar(re[0], re[2..], text);
      return;
    }
    if re == "$" {
      HereEnd(text);
      return text == [];
    }
    HereOne(re[0], Parse(re[1..]), text);
    if text != [] && (re[0] == '.' || re[0] == text[0]) {
      b := MatchHere(re[1..], text[1..]);
      return;
    }
    b := false;
  }

  lemma HereOne(c: char, rest: seq<Item>, text: string)
    ensures Here([One(c)] + rest, text) <==> text != [] && Fits(c, text[0]) && Here(rest, text[1..])
  {
    HereItem(One(c), rest, text);
    if text != [] {
      assert text[..1] == [text[0]];
    }
    if k: nat :| k <= |text| && Stands(One(c), text[..k]) && Here(rest, text[k..]) {
      assert k == 1;
    }
    if text != [] && Fits(c, text[0]) && Here(rest, text[1..]) {
      assert 1 <= |text| && Stands(One(c), text[..1]) && Here(rest, text[1..]);
    }
  }

  /** matchstar: does c* followed by the pattern match at the beginning of the text? */
  method MatchStar(c: char, re: string, text: string) returns (b: bool)
    ensures b <==> Here([Star(c)] + Parse(re), text)
    decreases |re|, 1
  {
    HereItem(Star(c), Parse(re), text);
    var k := 0;
    assert text[..0] == [];
    while true
      invariant 0 <= k <= |text| && Stands(Star(c), text[..k])
      invariant forall j: nat | j < k :: !Here(Parse(re), text[j..])
      decreases |text| - k
    {
      b := MatchHere(re, text[k..]);
      if b {
        return;
      }
      if k == |text| || !(text[k] == c || c == '.') {
        StarStops(c, re, text, k);
        return false;
      }
      assert text[..k + 1] == text[..k] + [text[k]];
      k := k + 1;
    }
  }

  /** c* cannot go past a character that does not fit. */
  lemma StarStops(c: char, re: string, text: string, k: nat)
    requires k <= |text| && (k < |text| ==> !Fits(c, text[k]))
    requires forall j: nat | j <= k :: !Here(Parse(re), text[j..])
    ensures !exists j: nat :: j <= |text| && Stands(Star(c), text[..j]) && Here(Parse(re), text[j..])
  {
    forall j: nat | k < j <= |text|
      ensures !Stands(Star(c), text[..j])
    {
      assert text[..j][k] == text[k];
    }
  }

  /** match: 1 exactly when the text holds a match of the pattern. */
  method Match(re: string, text: string) returns (b: bool)
    ensures b <==> Found(re, text)
  {
    if re != [] && re[0] == '^' {
      b := MatchHere(re[1..], text);
      assert text[0..] == text;
      FoundIsHere(Parse(re[1..]), text, 0);
      return;
    }
    var i := 0;
    while true
      invariant 0 <= i <= |text|
      invariant forall k: nat | k < i :: !FoundFrom(Parse(re), text, k)
      decreases |text| - i
    {
      b := MatchHere(re, text[i..]);
      FoundIsHere(Parse(re), text, i);
      if b {
        return;
      }
      if i == |text| {
        return false;
      }
      i := i + 1;
    }
  }
}
