/**
 Placeholders in a text: a NUL, a name, a NUL.

 A reader that counts NULs alone tells placeholders from text. A text is `Sound` if everything so
 read as a name is one, and `Clean` if moreover nothing read as text looks like a name.
 */
module Marks {
  import opened Common
  import opened Decimal

  const NUL := '\0'

  predicate IsNameChar(c: char) {
    'A' <= c <= 'Z' || '0' <= c <= '9'
  }

  /** Neither part of a name nor a placeholder's delimiter. */
  predicate IsBreak(c: char) {
    c != NUL && !IsNameChar(c)
  }

  // ---------- reading ----------

  /** The names completed so far, and the one being read, if a placeholder is open. */
  datatype Reading = Reading(names: seq<string>, open: Option<string>)

  function Step(r: Reading, c: char): Reading {
    match r.open
    case None => if c == NUL then r.(open := Some("")) else r
    case Some(n) =>
      if c == NUL then Reading(r.names + [n], None) else r.(open := Some(n + [c]))
  }

  function Read(s: string): Reading {
    if s == "" then Reading([], None) else Step(Read(Front(s)), Last(s))
  }

  function Names(s: string): seq<string> {
    Read(s).names
  }

  /** Every placeholder that opens in `s` closes in it. */
  predicate Even(s: string) {
    Read(s).open.None?
  }

  lemma ReadSnoc(s: string, c: char)
    ensures Read(s + [c]) == Step(Read(s), c)
  {
    assert Front(s + [c]) == s;
  }

  lemma ReadNext(s: string, p: nat)
    requires p < |s|
    ensures Read(s[..p + 1]) == Step(Read(s[..p]), s[p])
  {
    assert s[..p + 1] == s[..p] + [s[p]];
    ReadSnoc(s[..p], s[p]);
  }

  /** Reading `b` after `a` adds what `b` reads by itself. */
  lemma {:induction false} ReadAppend(a: string, b: string)
    requires Even(a)
    ensures Read(a + b) == Reading(Names(a) + Names(b), Read(b).open)
  {
    if b == "" {
      assert a + b == a;
    } else {
      ReadAppend(a, Front(b));
      assert a + b == (a + Front(b)) + [Last(b)];
      ReadSnoc(a + Front(b), Last(b));
      if Read(Front(b)).open.Some? && Last(b) == NUL {
        var n := Read(Front(b)).open.value;
        assert (Names(a) + Names(Front(b))) + [n] == Names(a) + (Names(Front(b)) + [n]);
      }
    }
  }

  lemma {:induction false} NulFreeReads(s: string)
    requires NUL !in s
    ensures Read(s) == Reading([], None)
  {
    if s != "" {
      assert Last(s) in s && forall c :: c in Front(s) ==> c in s;
      NulFreeReads(Front(s));
    }
  }

  /** A text whose reading finds nothing has no NUL. */
  lemma {:induction false} NothingReadIsNulFree(s: string)
    requires Read(s) == Reading([], None)
    ensures NUL !in s
  {
    if s != "" {
      NothingReadIsNulFree(Front(s));
      assert s == Front(s) + [Last(s)];
    }
  }

  lemma {:induction false} NamesGrow(s: string, p: nat)
    requires p <= |s|
    ensures Names(s[..p]) <= Names(s)
    decreases |s| - p
  {
    if p < |s| {
      ReadNext(s, p);
      NamesGrow(s, p + 1);
    } else {
      assert s[..p] == s;
    }
  }

  /** An open name is completed later on. */
  lemma {:induction false} OpenCloses(s: string, p: nat) returns (name: string)
    requires p < |s| && Even(s) && Read(s[..p]).open.Some?
    ensures name in Names(s) && Read(s[..p]).open.value <= name
    ensures s[p] != NUL ==> Read(s[..p]).open.value + [s[p]] <= name
    decreases |s| - p
  {
    assert s[..|s|] == s;
    ReadNext(s, p);
    if s[p] == NUL {
      name := Read(s[..p]).open.value;
      NamesGrow(s, p + 1);
      assert Last(Names(s[..p + 1])) == name;
    } else {
      name := OpenCloses(s, p + 1);
    }
  }

  function Bracket(name: string): string {
    [NUL] + name + [NUL]
  }

  // ---------- names ----------

  datatype Kind = Block | Inline | Url

  function Word(kind: Kind): (w: string)
    ensures w != "" && forall i :: 0 <= i < |w| ==> 'A' <= w[i] <= 'Z'
  {
    match kind
    case Block => "CODEBLOCK"
    case Inline => "INLINECODE"
    case Url => "URL"
  }

  /** Begins with the word of `kind` and a digit. */
  predicate Resembles(s: string, kind: Kind) {
    var w := Word(kind);
    |s| > |w| && s[..|w|] == w && IsDigit(s[|w|])
  }

  predicate Marked(s: string) {
    exists kind :: Resembles(s, kind)
  }

  predicate AllNameChars(n: string) {
    forall i :: 0 <= i < |n| ==> IsNameChar(n[i])
  }

  /** Every placeholder closes, and its name is made of capital letters and digits. */
  predicate Sound(s: string) {
    Even(s) && forall i :: 0 <= i < |Names(s)| ==> AllNameChars(Names(s)[i])
  }

  /** No text outside placeholders resembles a name. */
  predicate Clean(s: string) {
    forall p :: 0 <= p <= |s| && Even(s[..p]) ==> !Marked(s[p..])
  }

  // ---------- cutting ----------

  /** No placeholder of a sound text reaches across this position. */
  predicate Cut(s: string, p: int) {
    0 <= p <= |s| && (p == 0 || p == |s| || IsBreak(s[p - 1]) || IsBreak(s[p]))
  }

  lemma CutIsOutside(s: string, p: nat)
    requires Sound(s) && Cut(s, p)
    ensures Even(s[..p])
  {
    assert s[..|s|] == s;
    if 0 < p < |s| {
      NoBreakInside(s, p - 1);
      NoBreakInside(s, p);
      ReadNext(s, p - 1);
    }
  }

  lemma NoBreakInside(s: string, p: nat)
    requires Sound(s) && p < |s|
    ensures IsBreak(s[p]) ==> Even(s[..p])
  {
    if !Even(s[..p]) && s[p] != NUL {
      var n := Read(s[..p]).open.value;
      var name := OpenCloses(s, p);
      var i :| 0 <= i < |Names(s)| && Names(s)[i] == name;
      assert AllNameChars(name) && name[|n|] == s[p];
    }
  }

  lemma Between(s: string, lo: nat, hi: nat)
    requires lo <= hi <= |s| && Even(s[..lo]) && Even(s[..hi])
    ensures Even(s[lo..hi]) && Names(s[..hi]) == Names(s[..lo]) + Names(s[lo..hi])
  {
    assert s[..hi] == s[..lo] + s[lo..hi];
    ReadAppend(s[..lo], s[lo..hi]);
  }

  lemma MarkedPrefix(a: string, b: string)
    requires a <= b && Marked(a)
    ensures Marked(b)
  {
    var kind :| Resembles(a, kind);
    var n := |Word(kind)|;
    assert b[..n] == a[..n] && b[n] == a[n];
    assert Resembles(b, kind);
  }

  lemma SliceIsClean(s: string, lo: nat, hi: nat)
    requires lo <= hi <= |s| && Even(s[..lo]) && Clean(s)
    ensures Clean(s[lo..hi])
  {
    var t := s[lo..hi];
    forall p | 0 <= p <= |t| && Even(t[..p])
      ensures !Marked(t[p..])
    {
      assert s[..lo + p] == s[..lo] + t[..p];
      ReadAppend(s[..lo], t[..p]);
      if Marked(t[p..]) {
        assert t[p..] <= s[lo + p..];
        MarkedPrefix(t[p..], s[lo + p..]);
      }
    }
  }

  /** A piece of a sound text, cut where no placeholder is. */
  lemma SliceIsSound(s: string, lo: nat, hi: nat)
    requires Sound(s) && Cut(s, lo) && Cut(s, hi) && lo <= hi
    ensures Sound(s[lo..hi]) && Even(s[..lo]) && Even(s[..hi])
    ensures Names(s[..hi]) == Names(s[..lo]) + Names(s[lo..hi])
  {
    CutIsOutside(s, lo);
    CutIsOutside(s, hi);
    Between(s, lo, hi);
    NamesGrow(s, hi);
    forall i | 0 <= i < |Names(s[lo..hi])|
      ensures AllNameChars(Names(s[lo..hi])[i])
    {
      assert Names(s[lo..hi])[i] == Names(s)[|Names(s[..lo])| + i];
    }
  }

  // ---------- joining ----------

  /** Text cannot grow into a name across the joint. */
  predicate Joint(a: string, b: string) {
    a == "" || b == "" || !IsNameChar(Last(a)) || !IsNameChar(b[0])
  }

  lemma MarkedAcross(a: string, b: string)
    requires a != "" && Joint(a, b) && Marked(a + b)
    ensures Marked(a)
  {
    var kind :| Resembles(a + b, kind);
    var w, s := Word(kind), a + b;
    var n := |w|;
    assert forall i :: 0 <= i < n ==> s[i] == s[..n][i] == w[i];
    assert forall i :: 0 <= i <= n ==> IsNameChar(s[i]);
    assert s[|a| - 1] == Last(a) && (|a| < |s| ==> s[|a|] == b[0]);
    if |a| > n {
      assert a[..n] == s[..n] && a[n] == s[n];
      assert Resembles(a, kind);
    }
  }

  lemma AppendIsClean(a: string, b: string)
    requires Even(a) && Clean(a) && Clean(b) && Joint(a, b)
    ensures Clean(a + b)
  {
    var s := a + b;
    forall p | 0 <= p <= |s| && Even(s[..p])
      ensures !Marked(s[p..])
    {
      if p < |a| {
        assert s[..p] == a[..p] && s[p..] == a[p..] + b;
        if Marked(s[p..]) {
          MarkedAcross(a[p..], b);
        }
      } else {
        assert s[..p] == a + b[..p - |a|] && s[p..] == b[p - |a|..];
        ReadAppend(a, b[..p - |a|]);
      }
    }
  }

  lemma AppendIsSound(a: string, b: string)
    requires Sound(a) && Sound(b)
    ensures Sound(a + b) && Names(a + b) == Names(a) + Names(b)
  {
    ReadAppend(a, b);
  }

  // ---------- literals and tags ----------

  /** Markup inserted by the converter. */
  predicate IsMarkup(s: string) {
    s != "" && IsBreak(s[0]) && IsBreak(Last(s)) && forall c :: c in s ==> c != NUL && !('A' <= c <= 'Z')
  }

  lemma OnlyCapitalsAreMarked(s: string)
    requires s == "" || !('A' <= s[0] <= 'Z')
    ensures !Marked(s)
  {
    forall kind
      ensures !Resembles(s, kind)
    {
      assert |s| > |Word(kind)| ==> s[..|Word(kind)|][0] == s[0];
    }
  }

  lemma MarkupIsSound(s: string)
    requires IsMarkup(s)
    ensures Sound(s) && Names(s) == []
  {
    NulFreeReads(s);
  }

  lemma MarkupIsClean(s: string)
    requires IsMarkup(s)
    ensures Clean(s)
  {
    forall p | 0 <= p <= |s|
      ensures !Marked(s[p..])
    {
      assert p < |s| ==> s[p] in s;
      OnlyCapitalsAreMarked(s[p..]);
    }
  }

  /** Markup around a sound text. */
  lemma WrapIsSound(open: string, body: string, close: string)
    requires IsMarkup(open) && Sound(body) && IsMarkup(close)
    ensures Sound(open + body + close) && Names(open + body + close) == Names(body)
  {
    MarkupIsSound(open);
    MarkupIsSound(close);
    AppendIsSound(open, body);
    AppendIsSound(open + body, close);
  }

  lemma WrapIsClean(open: string, body: string, close: string)
    requires IsMarkup(open) && Sound(body) && Clean(body) && IsMarkup(close)
    ensures Clean(open + body + close)
  {
    MarkupIsSound(open);
    MarkupIsClean(open);
    MarkupIsClean(close);
    AppendIsSound(open, body);
    AppendIsClean(open, body);
    AppendIsClean(open + body, close);
  }
}
