/** The regular-expression matcher of project1/grep.c: the three C functions as methods,
    proved against a declarative reading of a pattern. */
module Grep {

  /** A C string without its terminating NUL. */
  type CString = s: seq<char> | '\0' !in s witness []

  /** One element of a pattern: a single character, a starred one, or the final `$`. */
  datatype Item = One(c: char) | Many(c: char) | EndOfText

  // ---------------------------------------------------------------- the declarative meaning

  /** The elements a pattern is made of, once a leading `^` is gone. */
  function Parse(re: CString): seq<Item> {
    if re == [] then []
    else if |re| > 1 && re[1] == '*' then [Many(re[0])] + Parse(re[2..])
    else if re == ['$'] then [EndOfText]
    else [One(re[0])] + Parse(re[1..])
  }

  /** The pattern text of a list of elements. */
  function Render(items: seq<Item>): seq<char> {
    if items == [] then []
    else
      var rest := Render(items[1..]);
      match items[0]
      case One(c) => [c] + rest
      case Many(c) => [c, '*'] + rest
      case EndOfText => ['$'] + rest
  }

  predicate Agrees(c: char, x: char) {
    c == '.' || c == x
  }

  predicate Accepts(item: Item, w: seq<char>) {
    match item
    case One(c) => |w| == 1 && Agrees(c, w[0])
    case Many(c) => forall i :: 0 <= i < |w| ==> Agrees(c, w[i])
    case EndOfText => w == []
  }

  function Concat(pieces: seq<seq<char>>): seq<char> {
    if pieces == [] then [] else pieces[0] + Concat(pieces[1..])
  }

  /** `pieces` cuts a prefix of `text` into one accepted word per element, and the
      prefix is all of `text` when the pattern ends in `$`. */
  ghost predicate Splits(items: seq<Item>, pieces: seq<seq<char>>, text: seq<char>) {
    && |pieces| == |items|
    && (forall i :: 0 <= i < |items| ==> Accepts(items[i], pieces[i]))
    && Concat(pieces) <= text
    && (EndOfText in items ==> Concat(pieces) == text)
  }

  /** Some prefix of `text` is in the language of `items`. */
  ghost predicate Begins(items: seq<Item>, text: seq<char>) {
    exists pieces :: Splits(items, pieces, text)
  }

  /** What a whole pattern promises about a line of text. */
  ghost predicate Occurs(re: CString, text: CString) {
    if re != [] && re[0] == '^' then Begins(Parse(re[1..]), text)
    else exists k :: 0 <= k <= |text| && Begins(Parse(re), text[k..])
  }

  // ---------------------------------------------------------------- lemmas

  /** The elements carry the whole pattern: `Parse` loses nothing. */
  lemma {:induction false} RenderParse(re: CString)
    ensures Render(Parse(re)) == re
  {
    if re == [] {
    } else if |re| > 1 && re[1] == '*' {
      RenderParse(re[2..]);
      assert Parse(re)[1..] == Parse(re[2..]);
      assert re == [re[0], '*'] + re[2..];
    } else if re == ['$'] {
      assert Parse(re)[1..] == [];
      assert Render([]) == [];
      assert Render(Parse(re)) == ['$'] + [];
    } else {
      RenderParse(re[1..]);
      assert Parse(re)[1..] == Parse(re[1..]);
    }
  }

  lemma {:induction false} BeginsNothing(text: seq<char>)
    ensures Begins([], text)
  {
    assert Splits([], [], text);
  }

  /** A first word `text[..k]` and a match of the rest make a match. */
  lemma {:induction false} BeginsCons(item: Item, rest: seq<Item>, text: seq<char>, k: nat)
    requires k <= |text| && Accepts(item, text[..k])
    requires Begins(rest, text[k..])
    requires item == EndOfText ==> k == |text|
    ensures Begins([item] + rest, text)
  {
    var pieces :| Splits(rest, pieces, text[k..]);
    var all := [text[..k]] + pieces;
    assert all[1..] == pieces;
    assert text == text[..k] + text[k..];
    assert Concat(all) == text[..k] + Concat(pieces);
    assert Splits([item] + rest, all, text);
  }

  /** Every match of a nonempty list of elements has that form. */
  lemma {:induction false} BeginsUncons(items: seq<Item>, text: seq<char>) returns (k: nat)
    requires items != [] && Begins(items, text)
    ensures k <= |text| && Accepts(items[0], text[..k]) && Begins(items[1..], text[k..])
  {
    var pieces :| Splits(items, pieces, text);
    k := |pieces[0]|;
    var w := Concat(pieces);
    assert w == pieces[0] + Concat(pieces[1..]);
    assert text[..k] == w[..k] == pieces[0];
    assert Concat(pieces[1..]) == w[k..];
    assert w[k..] <= text[k..];
    assert Splits(items[1..], pieces[1..], text[k..]);
  }

  lemma {:induction false} BeginsEnd(text: seq<char>)
    ensures Begins([EndOfText], text) <==> text == []
  {
    if Begins([EndOfText], text) {
      var pieces :| Splits([EndOfText], pieces, text);
      assert Accepts([EndOfText][0], pieces[0]);
      assert Concat(pieces[1..]) == [];
    }
    if text == [] {
      var pieces := [[]];
      assert Concat(pieces[1..]) == [];
      assert Splits([EndOfText], pieces, text);
    }
  }

  // ---------------------------------------------------------------- the code

  /** Is there a match of `re` at the beginning of `text`? */
  method MatchHere(re: CString, text: CString) returns (r: bool)
    ensures r <==> Begins(Parse(re), text)
    decreases |re|, 0
  {
    if re == [] {
      BeginsNothing(text);
      return true;
    }
    if |re| > 1 && re[1] == '*' {
      r := MatchStar(re[0], re[2..], text);
      return r;
    }
    if re[0] == '$' && |re| == 1 {
      BeginsEnd(text);
      return text == [];
    }
    assert Parse(re)[1..] == Parse(re[1..]);
    if text != [] && (re[0] == '.' || re[0] == text[0]) {
      r := MatchHere(re[1..], text[1..]);
      if r {
        BeginsCons(One(re[0]), Parse(re[1..]), text, 1);
      }
      if Begins(Parse(re), text) {
        var k := BeginsUncons(Parse(re), text);
        assert k == 1;
      }
      return r;
    }
    if Begins(Parse(re), text) {
      var k := BeginsUncons(Parse(re), text);
      assert false;
    }
    return false;
  }

  /** Is there a match of `c*re` at the beginning of `text`? Tries the shortest run of
      `c` first, and still misses no match. */
  method MatchStar(c: char, re: CString, text: CString) returns (r: bool)
    ensures r <==> Begins([Many(c)] + Parse(re), text)
    decreases |re|, 1
  {
    var i := 0;
    while true
      invariant 0 <= i <= |text|
      invariant forall j :: 0 <= j < i ==> Agrees(c, text[j])
      invariant forall k :: 0 <= k < i ==> !Begins(Parse(re), text[k..])
      decreases |text| - i
    {
      var here := MatchHere(re, text[i..]);
      if here {
        BeginsCons(Many(c), Parse(re), text, i);
        return true;
      }
      if !(i < |text| && (text[i] == c || c == '.')) {
        break;
      }
      i := i + 1;
    }
    assert ([Many(c)] + Parse(re))[1..] == Parse(re);
    if Begins([Many(c)] + Parse(re), text) {
      var k := BeginsUncons([Many(c)] + Parse(re), text);
      assert false;
    }
    return false;
  }

  /** Does `re` match anywhere in `text`? The loop also tries the empty suffix. */
  method Match(re: CString, text: CString) returns (r: bool)
    ensures r <==> Occurs(re, text)
  {
    if re != [] && re[0] == '^' {
      r := MatchHere(re[1..], text);
      return r;
    }
    var i := 0;
    while true
      invariant 0 <= i <= |text|
      invariant forall k :: 0 <= k < i ==> !Begins(Parse(re), text[k..])
      decreases |text| - i
    {
      var here := MatchHere(re, text[i..]);
      if here {
        return true;
      }
      if i == |text| {
        break;
      }
      i := i + 1;
    }
    return false;
  }
}
