/** grep's regular expressions: literal characters, `.`, `*`, `^` at the start and `$` at the end. */
module Grep {

  datatype Item = One(c: char) | Star(c: char) | End

  /** How a pattern reads: a character before `*` is repeated, a `$` that ends the pattern stands for the end. */
  function Items(re: string): seq<Item> {
    if re == "" then []
    else if |re| >= 2 && re[1] == '*' then [Star(re[0])] + Items(re[2..])
    else if re == "$" then [End]
    else [One(re[0])] + Items(re[1..])
  }

  predicate Fits(c: char, x: char) {
    c == '.' || c == x
  }

  ghost predicate AllFit(c: char, w: string) {
    forall i :: 0 <= i < |w| ==> Fits(c, w[i])
  }

  /** The items describe `w` when `rest` follows it. */
  ghost predicate Describes(items: seq<Item>, w: string, rest: string)
    decreases |items|
  {
    if items == [] then w == ""
    else
      match items[0]
      case One(c) => w != "" && Fits(c, w[0]) && Describes(items[1..], w[1..], rest)
      case Star(c) => exists k :: 0 <= k <= |w| && AllFit(c, w[..k]) && Describes(items[1..], w[k..], rest)
      case End => w == "" && rest == "" && Describes(items[1..], "", "")
  }

  /** Some prefix of the text is described. */
  ghost predicate Here(items: seq<Item>, text: string) {
    exists k :: 0 <= k <= |text| && Describes(items, text[..k], text[k..])
  }

  lemma HereNothing(text: string)
    ensures Here([], text)
  {
    assert Describes([], text[..0], text[0..]);
  }

  lemma HereOne(c: char, items: seq<Item>, text: string)
    ensures Here([One(c)] + items, text) <==> text != "" && Fits(c, text[0]) && Here(items, text[1..])
  {
    var all := [One(c)] + items;
    assert all[1..] == items;
    if Here(all, text) {
      var k :| 0 <= k <= |text| && Describes(all, text[..k], text[k..]);
      assert text[..k][1..] == text[1..][..k - 1] && text[1..][k - 1..] == text[k..];
      assert Describes(items, text[1..][..k - 1], text[1..][k - 1..]);
    }
    if text != "" && Fits(c, text[0]) && Here(items, text[1..]) {
      var k :| 0 <= k <= |text[1..]| && Describes(items, text[1..][..k], text[1..][k..]);
      assert text[..k + 1][1..] == text[1..][..k] && text[1..][k..] == text[k + 1..];
      assert Describes(all, text[..k + 1], text[k + 1..]);
    }
  }

  lemma HereEnd(text: string)
    ensures Here([End], text) <==> text == ""
  {
    if text == "" {
      assert Describes([End], text[..0], text[0..]);
    }
  }

  lemma HereStar(c: char, items: seq<Item>, text: string)
    ensures Here([Star(c)] + items, text) <==>
            exists k :: 0 <= k <= |text| && AllFit(c, text[..k]) && Here(items, text[k..])
  {
    var all := [Star(c)] + items;
    assert all[1..] == items;
    if Here(all, text) {
      var n :| 0 <= n <= |text| && Describes(all, text[..n], text[n..]);
      var k :| 0 <= k <= n && AllFit(c, text[..n][..k]) && Describes(items, text[..n][k..], text[n..]);
      assert text[..n][..k] == text[..k] && text[..n][k..] == text[k..][..n - k] && text[k..][n - k..] == text[n..];
      assert Describes(items, text[k..][..n - k], text[k..][n - k..]);
      assert Here(items, text[k..]);
    }
    if k :| 0 <= k <= |text| && AllFit(c, text[..k]) && Here(items, text[k..]) {
      var n :| 0 <= n <= |text[k..]| && Describes(items, text[k..][..n], text[k..][n..]);
      assert text[..k + n][..k] == text[..k] && text[..k + n][k..] == text[k..][..n] && text[k..][n..] == text[k + n..];
      assert Describes(all, text[..k + n], text[k + n..]);
    }
  }

  /** matchhere: whether the pattern describes some prefix of the text. */
  method MatchHere(re: string, text: string) returns (found: bool)
    ensures found <==> Here(Items(re), text)
    decreases |re|, 0
  {
    if re == "" {
      HereNothing(text);
      return true;
    }
    if |re| >= 2 && re[1] == '*' {
      HereStar(re[0], Items(re[2..]), text);
      found := MatchStar(re[0], re[2..], text);
      return;
    }
    if re == "$" {
      HereEnd(text);
      return text == "";
    }
    HereOne(re[0], Items(re[1..]), text);
    if text != "" && (re[0] == '.' || re[0] == text[0]) {
      found := MatchHere(re[1..], text[1..]);
      return;
    }
    return false;
  }

  /** matchstar: whether the pattern matches after some run of characters that fit `c`. */
  method MatchStar(c: char, re: string, text: string) returns (found: bool)
    ensures found <==> exists k :: 0 <= k <= |text| && AllFit(c, text[..k]) && Here(Items(re), text[k..])
    decreases |re|, 1
  {
    var k := 0;
    while true
      invariant k <= |text| && AllFit(c, text[..k])
      invariant forall j :: 0 <= j < k ==> !Here(Items(re), text[j..])
      decreases |text| - k
    {
      found := MatchHere(re, text[k..]);
      if found {
        return;
      }
      if k == |text| || !(text[k] == c || c == '.') {
        StarStops(c, text, k);
        return;
      }
      assert text[..k + 1] == text[..k] + [text[k]];
      k := k + 1;
    }
  }

  /** No longer run of fitting characters exists once one does not fit or the text ends. */
  lemma StarStops(c: char, text: string, k: nat)
    requires k <= |text| && (k == |text| || !Fits(c, text[k]))
    ensures forall j :: k < j <= |text| ==> !AllFit(c, text[..j])
  {
    forall j | k < j <= |text| ensures !AllFit(c, text[..j]) {
      assert text[..j][k] == text[k];
    }
  }

  /** match: whether the pattern describes some part of the text, or, after `^`, some prefix of it. */
  method Match(re: string, text: string) returns (found: bool)
    ensures re != "" && re[0] == '^' ==> (found <==> Here(Items(re[1..]), text))
    ensures re == "" || re[0] != '^' ==> (found <==> exists i :: 0 <= i <= |text| && Here(Items(re), text[i..]))
  {
    if re != "" && re[0] == '^' {
      found := MatchHere(re[1..], text);
      return;
    }
    var i := 0;
    while i <= |text|
      invariant i <= |text| + 1
      invariant forall j :: 0 <= j < i ==> !Here(Items(re), text[j..])
    {
      found := MatchHere(re, text[i..]);
      if found {
        return;
      }
      i := i + 1;
    }
    return false;
  }
}
