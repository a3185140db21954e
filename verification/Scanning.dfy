/** What the line and list expressions of the converter match, told without their scanners. */
module Scanning {
  import opened Common
  import opened JsText
  import opened Rules
  import opened Marks

  /** `e` is the end of the line that `i` is on, seen from `i`. */
  predicate EndsLine(s: string, i: nat, e: nat) {
    && i <= e <= |s| && (forall j :: i <= j < e ==> !IsLineEnd(s[j]))
    && (e == |s| || IsLineEnd(s[e]))
  }

  lemma LineEndIs(s: string, i: nat, e: nat)
    requires i <= |s|
    ensures LineEnd(s, i) == e <==> EndsLine(s, i, e)
  {
  }

  /** A header or a dashed item is a whole line, from the mark at its beginning to its end. */
  lemma PrefixedIsALine(s: string, i: nat, mark: string, open: string, close: string, e: nat, out: string)
    requires mark != ""
    ensures PrefixedAt(s, i, mark, open, close) == Some(Hit(i, e, out)) <==>
            && i + |mark| <= |s| && (i == 0 || IsLineEnd(s[i - 1])) && s[i..i + |mark|] == mark
            && EndsLine(s, i + |mark|, e) && out == open + s[i + |mark|..e] + close
    ensures PrefixedAt(s, i, mark, open, close).Some? ==> PrefixedAt(s, i, mark, open, close).value.at == i
  {
    if i + |mark| <= |s| {
      LineEndIs(s, i + |mark|, e);
    }
  }

  /** `d` is the end of a number that begins at `i`, with a dot and a space behind it. */
  predicate EndsNumber(s: string, i: nat, d: nat) {
    i < d && d + 2 <= |s| && (forall j :: i <= j < d ==> Decimal.IsDigit(s[j])) && s[d..d + 2] == ". "
  }

  lemma NumberEndIs(s: string, i: nat, d: nat)
    requires i < |s|
    ensures EndsNumber(s, i, d) ==> Run(s, i, c => Decimal.IsDigit(c)) == d
  {
    if EndsNumber(s, i, d) {
      assert s[d] == s[d..d + 2][0] == '.';
    }
  }

  /** A numbered item is a whole line, from the first digit of its number; without a number there is none. */
  lemma NumberedIsALine(s: string, i: nat, open: string, close: string, d: nat, e: nat, out: string)
    requires i < |s| && EndsNumber(s, i, d)
    ensures NumberedAt(s, i, open, close) == Some(Hit(i, e, out)) <==>
            && (i == 0 || IsLineEnd(s[i - 1])) && EndsLine(s, d + 2, e) && out == open + s[d + 2..e] + close
  {
    NumberEndIs(s, i, d);
    LineEndIs(s, d + 2, e);
  }

  lemma NumberedNeedsANumber(s: string, i: nat, open: string, close: string)
    requires i < |s| && NumberedAt(s, i, open, close).Some?
    ensures exists d :: EndsNumber(s, i, d)
  {
    var d := Run(s, i, c => Decimal.IsDigit(c));
    assert EndsNumber(s, i, d);
  }

  /** One item: to the nearest closing tag, and over the white space behind it. */
  predicate IsItem(s: string, i: nat, j: nat, e: nat) {
    && i + 4 <= j && j + 5 <= e <= |s| && s[i..i + 4] == "<li>" && s[j..j + 5] == "</li>"
    && (forall x :: i + 4 <= x < j ==> !Occurs(s, "</li>", x))
    && (forall x :: j + 5 <= x < e ==> IsSpace(s[x])) && (e == |s| || !IsSpace(s[e]))
  }

  lemma ItemIsNearest(s: string, i: nat, j: nat, e: nat)
    ensures IsItem(s, i, j, e) ==> ItemEnd(s, i) == Some(e)
  {
    if IsItem(s, i, j, e) {
      assert Occurs(s, LI, i) && Occurs(s, LI_END, j);
      assert Find(s, LI_END, i + 4) == Some(j);
    }
  }

  lemma ItemHasATag(s: string, i: nat) returns (j: nat)
    requires ItemEnd(s, i).Some?
    ensures IsItem(s, i, j, ItemEnd(s, i).value)
  {
    j := Find(s, LI_END, i + 4).value;
    assert s[j..j + 5] == "</li>" && s[i..i + 4] == "<li>";
  }

  /** Where one item ends and the next begins. */
  predicate AreItems(s: string, cuts: seq<nat>, tags: seq<nat>) {
    && |cuts| == |tags| + 1
    && forall k :: 0 <= k < |tags| ==> IsItem(s, cuts[k], tags[k], cuts[k + 1])
  }

  /** A list is all the items that follow each other, until there is none. */
  lemma {:induction false} ItemsAreAll(s: string, i: nat) returns (cuts: seq<nat>, tags: seq<nat>)
    requires i <= |s|
    ensures AreItems(s, cuts, tags) && cuts[0] == i && Last(cuts) == ItemsEnd(s, i)
    ensures forall j, e :: !IsItem(s, Last(cuts), j, e)
    decreases |s| - i
  {
    if ItemEnd(s, i) == None {
      cuts, tags := [i], [];
      forall j: nat, e: nat
        ensures !IsItem(s, i, j, e)
      {
        ItemIsNearest(s, i, j, e);
      }
    } else {
      var j := ItemHasATag(s, i);
      var cuts2, tags2 := ItemsAreAll(s, ItemEnd(s, i).value);
      cuts, tags := [i] + cuts2, [j] + tags2;
    }
  }

  // ---------- addresses ----------

  predicate IsScheme(s: string) {
    s == "http://" || s == "https://" || s == "file://"
  }

  predicate IsAddressWith(s: string, i: nat, n: nat, e: nat) {
    && i + n < e <= |s| && IsScheme(s[i..i + n])
    && (forall x :: i + n <= x < e ==> !IsSpace(s[x])) && (e == |s| || IsSpace(s[e]))
  }

  /** A scheme and at least one more character, up to the next white space. */
  predicate IsAddress(s: string, i: nat, e: nat) {
    IsAddressWith(s, i, 7, e) || IsAddressWith(s, i, 8, e)
  }

  lemma SchemeIs(s: string, i: nat)
    ensures
      var n := SchemeLength(s, i);
      (n == 0 || n == 7 || n == 8) && (n > 0 ==> i + n <= |s| && IsScheme(s[i..i + n]))
  {
  }

  lemma SchemeFound(s: string, i: nat, n: nat)
    requires i + n <= |s| && (n == 7 || n == 8) && IsScheme(s[i..i + n])
    ensures SchemeLength(s, i) == n
  {
    if n == 8 {
      assert s[i..i + 8] == "https://" && s[i..i + 7] == s[i..i + 8][..7];
      assert s[i..i + 7][4] == 's';
    } else if s[i..i + 7] == "file://" {
      assert s[i..i + 7][0] == 'f';
      assert i + 8 <= |s| ==> s[i..i + 8][0] == 'f';
    }
  }

  lemma AddressIs(s: string, i: nat, e: nat)
    ensures UrlEnd(s, i) == Some(e) <==> IsAddress(s, i, e)
  {
    UrlIsUnbroken(s, i, e);
    SchemeIs(s, i);
    if IsAddressWith(s, i, 7, e) {
      SchemeFound(s, i, 7);
    }
    if IsAddressWith(s, i, 8, e) {
      SchemeFound(s, i, 8);
    }
  }

  lemma AddressBeginsNoSpace(s: string, i: nat, e: nat)
    requires UrlEnd(s, i) == Some(e)
    ensures i < |s| && !IsSpace(s[i])
  {
    SchemeIs(s, i);
    assert s[i] == s[i..i + SchemeLength(s, i)][0];
  }

  /** An address is found at the beginning of a line, and behind a white space, which stays. */
  lemma AddressIsFound(s: string, i: nat, k: nat, at: nat, e: nat)
    requires i < |s|
    ensures UrlAt(s, i, k) == Some(Hit(at, e, Tag(Url, k))) <==>
            || (at == i && (i == 0 || IsLineEnd(s[i - 1])) && IsAddress(s, i, e))
            || (at == i + 1 && IsSpace(s[i]) && IsAddress(s, i + 1, e))
  {
    AddressIs(s, i, e);
    AddressIs(s, i + 1, e);
    if UrlEnd(s, i).Some? {
      AddressBeginsNoSpace(s, i, UrlEnd(s, i).value);
    }
  }
}
