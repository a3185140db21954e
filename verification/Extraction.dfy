/** The three passes that move code blocks, inline code and addresses out of the way. */
module Extraction {
  import opened Common
  import opened Marks
  import opened Rules
  import opened Rewriting
  import opened Restoring

  /** The text with its matches replaced by numbered placeholders. */
  function Pulled(kind: Kind, s: string): string {
    Rewrite(Extract(kind), s, 0, 0)
  }

  /** The matches from `i` on. */
  function SpansFrom(kind: Kind, s: string, i: nat, k: nat): seq<string>
    requires i <= |s|
    decreases |s| - i
  {
    match Next(Extract(kind), s, i, k)
    case None => []
    case Some(h) => [s[h.at..h.end]] + SpansFrom(kind, s, h.end, k + 1)
  }

  function Spans(kind: Kind, s: string): seq<string> {
    SpansFrom(kind, s, 0, 0)
  }

  /** The matches by number, and some text for numbers that were not given out. */
  function ByNumber(spans: seq<string>): nat -> string {
    (k: nat) => if k < |spans| then spans[k] else "?"
  }

  /** The names that a pass gives out, in order. */
  function NamesFrom(kind: Kind, k: nat, count: nat): (names: seq<string>)
    ensures |names| == count && forall i :: 0 <= i < count ==> names[i] == NameOf(kind, k + i)
  {
    seq(count, i requires 0 <= i => NameOf(kind, k + i))
  }

  /** The placeholders inside the matches. */
  function Nested(spans: seq<string>): seq<string> {
    if spans == [] then [] else Names(spans[0]) + Nested(spans[1..])
  }

  // ---------- conservation ----------

  lemma {:induction false} LostAreNested(kind: Kind, s: string, i: nat, k: nat)
    requires i <= |s|
    ensures AllLost(Extract(kind), s, i, k) == Nested(SpansFrom(kind, s, i, k))
    decreases |s| - i
  {
    match Next(Extract(kind), s, i, k)
    case None =>
    case Some(h) =>
      LostAreNested(kind, s, h.end, k + 1);
      var more := SpansFrom(kind, s, h.end, k + 1);
      assert ([s[h.at..h.end]] + more)[1..] == more;
  }

  lemma {:induction false} GainedAreNumbered(kind: Kind, s: string, i: nat, k: nat)
    requires i <= |s|
    ensures AllGained(Extract(kind), s, i, k) == NamesFrom(kind, k, |SpansFrom(kind, s, i, k)|)
    decreases |s| - i
  {
    match Next(Extract(kind), s, i, k)
    case None =>
    case Some(h) =>
      GainedAreNumbered(kind, s, h.end, k + 1);
  }

  /** The placeholders of the new text and of its matches are those of the old text and the new ones. */
  lemma PullConserves(kind: Kind, s: string)
    requires Sound(s)
    ensures Sound(Pulled(kind, s))
    ensures multiset(Names(Pulled(kind, s))) + multiset(Nested(Spans(kind, s))) ==
            multiset(Names(s)) + multiset(NamesFrom(kind, 0, |Spans(kind, s)|))
  {
    RewriteConserves(Extract(kind), s, 0, 0);
    LostAreNested(kind, s, 0, 0);
    GainedAreNumbered(kind, s, 0, 0);
    assert s[0..] == s;
  }

  // ---------- round trip ----------

  predicate NoneOf(kind: Kind, names: seq<string>) {
    forall i :: 0 <= i < |names| ==> Number(kind, names[i]) == None
  }

  lemma SliceHasNone(kind: Kind, s: string, lo: nat, hi: nat)
    requires Sound(s) && Cut(s, lo) && Cut(s, hi) && lo <= hi && NoneOf(kind, Names(s))
    ensures Sound(s[lo..hi]) && NoneOf(kind, Names(s[lo..hi]))
  {
    SliceIsSound(s, lo, hi);
    NamesGrow(s, hi);
    forall i | 0 <= i < |Names(s[lo..hi])|
      ensures Number(kind, Names(s[lo..hi])[i]) == None
    {
      assert Names(s[lo..hi])[i] == Names(s)[|Names(s[..lo])| + i];
    }
  }

  lemma OthersStay(kind: Kind, t: string, stored: nat -> string)
    requires Sound(t) && NoneOf(kind, Names(t))
    ensures Substitute(t, Only(kind, stored)) == t
  {
    SubstituteKeeps(t, Only(kind, stored));
  }

  lemma TagIsReplaced(kind: Kind, k: nat, stored: nat -> string)
    ensures Substitute(Tag(kind, k), Only(kind, stored)) == stored(k)
  {
    var name := NameOf(kind, k);
    NameOfIsName(kind, k);
    NumberOfName(kind, k);
    SubstituteBracket(name, Only(kind, stored));
  }

  /** One match put back. */
  lemma HitUndone(chunk: string, kind: Kind, k: nat, rest: string, stored: nat -> string)
    requires Sound(chunk) && NoneOf(kind, Names(chunk)) && Sound(rest)
    ensures Substitute(chunk + Tag(kind, k) + rest, Only(kind, stored)) ==
            chunk + stored(k) + Substitute(rest, Only(kind, stored))
  {
    TagIsSound(kind, k);
    AppendIsSound(chunk, Tag(kind, k));
    SubstituteAppend(chunk + Tag(kind, k), rest, Only(kind, stored));
    SubstituteAppend(chunk, Tag(kind, k), Only(kind, stored));
    OthersStay(kind, chunk, stored);
    TagIsReplaced(kind, k, stored);
  }

  lemma HitIsTag(kind: Kind, s: string, i: nat, k: nat)
    requires Next(Extract(kind), s, i, k).Some?
    ensures Next(Extract(kind), s, i, k).value.out == Tag(kind, k)
    decreases |s| - i
  {
    if MatchAt(Extract(kind), s, i, k).None? {
      HitIsTag(kind, s, i + 1, k);
    }
  }

  lemma UndoHit(kind: Kind, s: string, i: nat, k: nat, spans: seq<string>, h: Hit)
    requires Sound(s) && NoneOf(kind, Names(s)) && Cut(s, i) && Next(Extract(kind), s, i, k) == Some(h)
    requires k <= |spans| && spans[k..] == SpansFrom(kind, s, i, k)
    ensures Cut(s, h.end) && k < |spans| && spans[k + 1..] == SpansFrom(kind, s, h.end, k + 1)
    ensures Substitute(Rewrite(Extract(kind), s, i, k), Only(kind, ByNumber(spans))) ==
            s[i..h.at] + s[h.at..h.end] +
            Substitute(Rewrite(Extract(kind), s, h.end, k + 1), Only(kind, ByNumber(spans)))
  {
    NextIsFair(Extract(kind), s, i, k);
    HitIsTag(kind, s, i, k);
    SliceHasNone(kind, s, i, h.at);
    RewriteConserves(Extract(kind), s, h.end, k + 1);
    assert spans[k] == spans[k..][0] && spans[k + 1..] == spans[k..][1..];
    HitUndone(s[i..h.at], kind, k, Rewrite(Extract(kind), s, h.end, k + 1), ByNumber(spans));
  }

  lemma ThreeSlices(s: string, a: nat, b: nat, c: nat)
    requires a <= b <= c <= |s|
    ensures s[a..] == s[a..b] + s[b..c] + s[c..]
  {
  }

  lemma {:induction false} UndoFrom(kind: Kind, s: string, i: nat, k: nat, spans: seq<string>)
    requires Sound(s) && NoneOf(kind, Names(s)) && Cut(s, i)
    requires k <= |spans| && spans[k..] == SpansFrom(kind, s, i, k)
    ensures Substitute(Rewrite(Extract(kind), s, i, k), Only(kind, ByNumber(spans))) == s[i..]
    decreases |s| - i
  {
    match Next(Extract(kind), s, i, k)
    case None =>
      SliceHasNone(kind, s, i, |s|);
      assert s[i..|s|] == s[i..];
      OthersStay(kind, s[i..], ByNumber(spans));
    case Some(h) =>
      UndoHit(kind, s, i, k, spans, h);
      UndoFrom(kind, s, h.end, k + 1, spans);
      ThreeSlices(s, i, h.at, h.end);
  }

  lemma {:induction false} SpansAreVisible(kind: Kind, s: string, i: nat, k: nat, j: nat)
    requires Sound(s) && i <= |s| && j < |SpansFrom(kind, s, i, k)|
    ensures SpansFrom(kind, s, i, k)[j] != "" && SpansFrom(kind, s, i, k)[j][0] != NUL
    decreases |s| - i
  {
    var h := Next(Extract(kind), s, i, k).value;
    if j == 0 {
      HitIsVisible(kind, s, i, k);
    } else {
      SpansAreVisible(kind, s, h.end, k + 1, j - 1);
    }
  }

  lemma {:induction false} HitIsVisible(kind: Kind, s: string, i: nat, k: nat)
    requires Next(Extract(kind), s, i, k).Some?
    ensures s[Next(Extract(kind), s, i, k).value.at] != NUL
    decreases |s| - i
  {
    match MatchAt(Extract(kind), s, i, k)
    case Some(h) => MatchIsVisible(kind, s, i, k);
    case None => HitIsVisible(kind, s, i + 1, k);
  }

  lemma MatchIsVisible(kind: Kind, s: string, i: nat, k: nat)
    requires i < |s| && MatchAt(Extract(kind), s, i, k).Some?
    ensures s[MatchAt(Extract(kind), s, i, k).value.at] != NUL
  {
    if kind.Block? {
      OccursAt(s, "```", i, 0);
    }
  }

  /**
   Putting the matches back for their placeholders gives the text they were taken from if and only
   if the scan mistakes nothing for one of them.
   */
  lemma PullUndone(kind: Kind, s: string)
    requires Sound(s) && NoneOf(kind, Names(s))
    ensures Restore(kind, Pulled(kind, s), ByNumber(Spans(kind, s))) == s <==> !Mistaken(kind, Pulled(kind, s))
  {
    var stored := ByNumber(Spans(kind, s));
    PullConserves(kind, s);
    UndoFrom(kind, s, 0, 0, Spans(kind, s));
    assert s[0..] == s;
    if Mistaken(kind, Pulled(kind, s)) {
      forall k: nat
        ensures stored(k) != "" && stored(k)[0] != NUL
      {
        if k < |Spans(kind, s)| {
          SpansAreVisible(kind, s, 0, 0, k);
        }
      }
      MistakeShows(kind, Pulled(kind, s), stored);
    } else {
      RestoreIsSubstitute(kind, Pulled(kind, s), stored);
    }
  }

  // ---------- numbering ----------

  /** The names of one kind, in order. */
  function OfKind(kind: Kind, names: seq<string>): seq<string> {
    if names == [] then []
    else (if Number(kind, names[0]).Some? then [names[0]] else []) + OfKind(kind, names[1..])
  }

  lemma {:induction false} OfKindAppend(kind: Kind, a: seq<string>, b: seq<string>)
    ensures OfKind(kind, a + b) == OfKind(kind, a) + OfKind(kind, b)
  {
    if a == [] {
      assert a + b == b && OfKind(kind, a) + OfKind(kind, b) == OfKind(kind, b);
    } else {
      assert (a + b)[1..] == a[1..] + b;
      OfKindAppend(kind, a[1..], b);
      Associate(if Number(kind, a[0]).Some? then [a[0]] else [], OfKind(kind, a[1..]), OfKind(kind, b));
    }
  }

  lemma {:induction false} OfKindNone(kind: Kind, names: seq<string>)
    requires NoneOf(kind, names)
    ensures OfKind(kind, names) == []
  {
    if names != [] {
      OfKindNone(kind, names[1..]);
    }
  }

  /** One match: its placeholder comes before those of the rest. */
  lemma HitIsNumbered(kind: Kind, chunk: string, k: nat, rest: string)
    requires Sound(chunk) && NoneOf(kind, Names(chunk)) && Sound(rest)
    ensures OfKind(kind, Names(chunk + Tag(kind, k) + rest)) == [NameOf(kind, k)] + OfKind(kind, Names(rest))
  {
    TagIsSound(kind, k);
    ChunkIsSound(chunk, Tag(kind, k), rest);
    OfKindAppend(kind, Names(chunk) + [NameOf(kind, k)], Names(rest));
    OfKindAppend(kind, Names(chunk), [NameOf(kind, k)]);
    OfKindNone(kind, Names(chunk));
    OfKindOne(kind, k);
    assert [] + [NameOf(kind, k)] == [NameOf(kind, k)];
  }

  lemma OfKindOne(kind: Kind, k: nat)
    ensures OfKind(kind, [NameOf(kind, k)]) == [NameOf(kind, k)]
  {
    NumberOfName(kind, k);
    assert [NameOf(kind, k)][1..] == [];
  }

  lemma NamesFromCons(kind: Kind, k: nat, count: nat)
    ensures NamesFrom(kind, k, count + 1) == [NameOf(kind, k)] + NamesFrom(kind, k + 1, count)
  {
  }

  lemma NumberedHit(kind: Kind, s: string, i: nat, k: nat, h: Hit)
    requires Sound(s) && NoneOf(kind, Names(s)) && Cut(s, i) && Next(Extract(kind), s, i, k) == Some(h)
    ensures Cut(s, h.end)
    ensures OfKind(kind, Names(Rewrite(Extract(kind), s, i, k))) ==
            [NameOf(kind, k)] + OfKind(kind, Names(Rewrite(Extract(kind), s, h.end, k + 1)))
  {
    NextIsFair(Extract(kind), s, i, k);
    HitIsTag(kind, s, i, k);
    SliceHasNone(kind, s, i, h.at);
    RewriteConserves(Extract(kind), s, h.end, k + 1);
    HitIsNumbered(kind, s[i..h.at], k, Rewrite(Extract(kind), s, h.end, k + 1));
  }

  lemma NumberedRest(kind: Kind, s: string, i: nat, k: nat)
    requires Sound(s) && NoneOf(kind, Names(s)) && Cut(s, i) && Next(Extract(kind), s, i, k).None?
    ensures OfKind(kind, Names(Rewrite(Extract(kind), s, i, k))) == []
    ensures SpansFrom(kind, s, i, k) == []
  {
    SliceHasNone(kind, s, i, |s|);
    assert s[i..|s|] == s[i..];
    OfKindNone(kind, Names(s[i..]));
  }

  lemma {:induction false} NumberedFrom(kind: Kind, s: string, i: nat, k: nat)
    requires Sound(s) && NoneOf(kind, Names(s)) && Cut(s, i)
    ensures OfKind(kind, Names(Rewrite(Extract(kind), s, i, k))) == NamesFrom(kind, k, |SpansFrom(kind, s, i, k)|)
    decreases |s| - i
  {
    match Next(Extract(kind), s, i, k)
    case None =>
      NumberedRest(kind, s, i, k);
    case Some(h) =>
      NumberedHit(kind, s, i, k, h);
      NumberedFrom(kind, s, h.end, k + 1);
      NamesFromCons(kind, k, |SpansFrom(kind, s, h.end, k + 1)|);
  }

  /** A pass numbers its placeholders 0, 1, 2, ... in the order of the text. */
  lemma PullNumbersInOrder(kind: Kind, s: string)
    requires Sound(s) && NoneOf(kind, Names(s))
    ensures OfKind(kind, Names(Pulled(kind, s))) == NamesFrom(kind, 0, |Spans(kind, s)|)
  {
    NumberedFrom(kind, s, 0, 0);
  }

  lemma PullAddsOwnKind(kind: Kind, other: Kind, s: string)
    requires Sound(s) && NoneOf(other, Names(s)) && kind != other
    ensures NoneOf(other, Names(Pulled(kind, s)))
  {
    PullConserves(kind, s);
    var names, count := Names(Pulled(kind, s)), |Spans(kind, s)|;
    forall i | 0 <= i < |names|
      ensures Number(other, names[i]) == None
    {
      assert names[i] in multiset(names);
      assert names[i] in multiset(Names(s)) + multiset(NamesFrom(kind, 0, count));
      if names[i] !in Names(s) {
        var j :| 0 <= j < count && NamesFrom(kind, 0, count)[j] == names[i];
        NumberOfOtherName(other, kind, j);
      }
    }
  }

  // ---------- the three passes ----------

  function WithoutBlocks(text: string): string {
    Pulled(Block, text)
  }

  function WithoutCode(text: string): string {
    Pulled(Inline, WithoutBlocks(text))
  }

  /** The text after all three passes. */
  function Skeleton(text: string): string {
    Pulled(Url, WithoutCode(text))
  }

  lemma TextIsSound(text: string)
    requires NUL !in text
    ensures Sound(text) && Names(text) == []
  {
    NulFreeReads(text);
  }

  /** Each pass starts from a text that holds none of its own placeholders. */
  lemma PassesAreSound(text: string)
    requires NUL !in text
    ensures Sound(text) && NoneOf(Block, Names(text))
    ensures Sound(WithoutBlocks(text)) && NoneOf(Inline, Names(WithoutBlocks(text)))
    ensures Sound(WithoutCode(text)) && NoneOf(Url, Names(WithoutCode(text)))
    ensures Sound(Skeleton(text))
  {
    TextIsSound(text);
    PullConserves(Block, text);
    PullAddsOwnKind(Block, Inline, text);
    PullAddsOwnKind(Block, Url, text);
    PullConserves(Inline, WithoutBlocks(text));
    PullAddsOwnKind(Inline, Url, WithoutBlocks(text));
    PullConserves(Url, WithoutCode(text));
  }

  /** A text whose placeholders are all of one kind. */
  lemma {:induction false} OwnKindIsNeverMistaken(kind: Kind, t: string)
    requires Sound(t) && forall i :: 0 <= i < |Names(t)| ==> Number(kind, Names(t)[i]).Some?
    ensures !Mistaken(kind, t)
    decreases |t|
  {
    if NUL in t {
      var text, name, rest := Lead(t);
      assert Names(t)[0] == name;
      assert forall i :: 0 <= i < |Names(rest)| ==> Names(rest)[i] == Names(t)[i + 1];
      OwnKindIsNeverMistaken(kind, rest);
      MistakenLead(kind, text, name, rest);
    }
  }

  lemma BlocksAreNeverMistaken(text: string)
    requires NUL !in text
    ensures !Mistaken(Block, WithoutBlocks(text))
  {
    PassesAreSound(text);
    TextIsSound(text);
    PullConserves(Block, text);
    var names, count := Names(WithoutBlocks(text)), |Spans(Block, text)|;
    forall i | 0 <= i < |names|
      ensures Number(Block, names[i]).Some?
    {
      assert names[i] in multiset(names) + multiset(Nested(Spans(Block, text)));
      assert names[i] in multiset([]) + multiset(NamesFrom(Block, 0, count));
      var j :| 0 <= j < count && NamesFrom(Block, 0, count)[j] == names[i];
      NumberOfName(Block, j);
    }
    OwnKindIsNeverMistaken(Block, WithoutBlocks(text));
  }

  /**
   Undoing the three passes, last one first: each gives back exactly the text its pass started from,
   and so the whole the input, if and only if no text is mistaken for a placeholder of addresses, or
   of inline code.
   */
  lemma ExtractionRoundTrip(text: string)
    requires NUL !in text
    ensures
      var code, blocks := WithoutCode(text), WithoutBlocks(text);
      var undone := !Mistaken(Url, Skeleton(text)) && !Mistaken(Inline, code);
      && (Restore(Url, Skeleton(text), ByNumber(Spans(Url, code))) == code
          && Restore(Inline, code, ByNumber(Spans(Inline, blocks))) == blocks
          && Restore(Block, blocks, ByNumber(Spans(Block, text))) == text
          <==> undone)
      && (undone ==>
            var second := Restore(Url, Skeleton(text), ByNumber(Spans(Url, code)));
            var first := Restore(Inline, second, ByNumber(Spans(Inline, blocks)));
            Restore(Block, first, ByNumber(Spans(Block, text))) == text)
  {
    PassesAreSound(text);
    BlocksAreNeverMistaken(text);
    PullUndone(Url, WithoutCode(text));
    PullUndone(Inline, WithoutBlocks(text));
    PullUndone(Block, text);
  }

  /** Each pass numbers its placeholders in order. */
  lemma ExtractionNumbersInOrder(text: string)
    requires NUL !in text
    ensures OfKind(Block, Names(WithoutBlocks(text))) == NamesFrom(Block, 0, |Spans(Block, text)|)
    ensures OfKind(Inline, Names(WithoutCode(text))) == NamesFrom(Inline, 0, |Spans(Inline, WithoutBlocks(text))|)
    ensures OfKind(Url, Names(Skeleton(text))) == NamesFrom(Url, 0, |Spans(Url, WithoutCode(text))|)
  {
    PassesAreSound(text);
    PullNumbersInOrder(Block, text);
    PullNumbersInOrder(Inline, WithoutBlocks(text));
    PullNumbersInOrder(Url, WithoutCode(text));
  }
}
