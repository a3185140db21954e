/** What becomes of the extracted pieces between the first pass of `markdownToHtml` and the last restoring one. */
module Conversion {
  import opened Common
  import opened Marks
  import opened Rules
  import opened Rewriting
  import opened Restoring
  import opened Extraction
  import opened Markdown

  /** The text that the pass for `kind` works on. */
  function Before(text: string, kind: Kind): string {
    match kind
    case Block => text
    case Inline => WithoutBlocks(text)
    case Url => WithoutCode(text)
  }

  function SpansOf(text: string, kind: Kind): seq<string> {
    Spans(kind, Before(text, kind))
  }

  /** The names given out for `kind`. */
  function Issued(text: string, kind: Kind): seq<string> {
    NamesFrom(kind, 0, |SpansOf(text, kind)|)
  }

  /** The stored pieces by number; `missing` stands for what an index out of range would yield. */
  function Stored(text: string, kind: Kind, missing: string): nat -> string {
    (k: nat) => if k < |SpansOf(text, kind)| then Html(kind, SpansOf(text, kind)[k]) else missing
  }

  /** The text when restoring begins. */
  function Layout(text: string): string {
    Formatted(Skeleton(text), FORMATTING)
  }

  function WithUrls(text: string, missing: string): string {
    Restore(Url, Layout(text), Stored(text, Url, missing))
  }

  function WithBlocks(text: string, missing: string): string {
    Restore(Block, WithUrls(text, missing), Stored(text, Block, missing))
  }

  /** The text when restoring ends. */
  function Converted(text: string, missing: string): string {
    Restore(Inline, WithBlocks(text, missing), Stored(text, Inline, missing))
  }

  /**
   The first two restoring passes take no text for a placeholder of their kind. The last one has no
   other kind left to be misled by.
   */
  predicate Unmistaken(text: string, missing: string) {
    !Mistaken(Url, Layout(text)) && !Mistaken(Block, WithUrls(text, missing))
  }

  // ---------- the matches ----------

  /** The marks at the ends of a match. */
  predicate Delimited(kind: Kind, span: string) {
    match kind
    case Block => |span| >= 6 && span[2] == '`' && span[|span| - 3] == '`'
    case Inline => |span| >= 2 && span[0] == '`' && Last(span) == '`'
    case Url => true
  }

  lemma MatchIsDelimited(kind: Kind, s: string, x: nat, k: nat, h: Hit)
    requires x < |s| && MatchAt(Extract(kind), s, x, k) == Some(h)
    ensures Delimited(kind, s[h.at..h.end])
  {
    if kind.Block? {
      OccursAt(s, "```", x, 2);
      OccursAt(s, "```", h.end - 3, 0);
    }
  }

  lemma SliceNames(s: string, lo: nat, hi: nat, n: string)
    requires Sound(s) && Cut(s, lo) && Cut(s, hi) && lo <= hi && n in Names(s[lo..hi])
    ensures n in Names(s)
  {
    SliceIsSound(s, lo, hi);
    NamesGrow(s, hi);
    assert n in Names(s[..hi]);
  }

  lemma {:induction false} NextIsDelimited(kind: Kind, s: string, i: nat, k: nat)
    requires Next(Extract(kind), s, i, k).Some?
    ensures var h := Next(Extract(kind), s, i, k).value; Delimited(kind, s[h.at..h.end])
    decreases |s| - i
  {
    match MatchAt(Extract(kind), s, i, k)
    case Some(h) => MatchIsDelimited(kind, s, i, k, h);
    case None => NextIsDelimited(kind, s, i + 1, k);
  }

  lemma NextIsCut(kind: Kind, s: string, i: nat, k: nat, h: Hit)
    requires Sound(s) && Next(Extract(kind), s, i, k) == Some(h)
    ensures Cut(s, h.at) && Cut(s, h.end)
  {
    NextIsFair(Extract(kind), s, i, k);
  }

  lemma {:induction false} SpanIsSlice(kind: Kind, s: string, i: nat, k: nat, j: nat) returns (lo: nat, hi: nat)
    requires Sound(s) && Cut(s, i) && j < |SpansFrom(kind, s, i, k)|
    ensures lo <= hi <= |s| && Cut(s, lo) && Cut(s, hi) && SpansFrom(kind, s, i, k)[j] == s[lo..hi]
    decreases |s| - i
  {
    var h := Next(Extract(kind), s, i, k).value;
    NextIsCut(kind, s, i, k, h);
    if j == 0 {
      lo, hi := h.at, h.end;
    } else {
      lo, hi := SpanIsSlice(kind, s, h.end, k + 1, j - 1);
    }
  }

  lemma {:induction false} SpanIsDelimited(kind: Kind, s: string, i: nat, k: nat, j: nat)
    requires i <= |s| && j < |SpansFrom(kind, s, i, k)|
    ensures Delimited(kind, SpansFrom(kind, s, i, k)[j])
    decreases |s| - i
  {
    var h := Next(Extract(kind), s, i, k).value;
    if j == 0 {
      NextIsDelimited(kind, s, i, k);
    } else {
      SpanIsDelimited(kind, s, h.end, k + 1, j - 1);
    }
  }

  lemma SpanIsSound(kind: Kind, s: string, j: nat)
    requires Sound(s) && j < |Spans(kind, s)|
    ensures Sound(Spans(kind, s)[j]) && Delimited(kind, Spans(kind, s)[j])
    ensures forall n :: n in Names(Spans(kind, s)[j]) ==> n in Names(s)
  {
    var lo, hi := SpanIsSlice(kind, s, 0, 0, j);
    SpanIsDelimited(kind, s, 0, 0, j);
    SliceIsSound(s, lo, hi);
    forall n | n in Names(s[lo..hi])
      ensures n in Names(s)
    {
      SliceNames(s, lo, hi, n);
    }
  }

  // ---------- the ledger ----------

  lemma {:induction false} NestedIn(spans: seq<string>, j: nat, n: string)
    requires j < |spans| && n in Names(spans[j])
    ensures n in Nested(spans)
  {
    if j > 0 {
      NestedIn(spans[1..], j - 1, n);
    }
  }

  lemma {:induction false} NestedFrom(spans: seq<string>, n: string) returns (j: nat)
    requires n in Nested(spans)
    ensures j < |spans| && n in Names(spans[j])
  {
    if n in Names(spans[0]) {
      j := 0;
    } else {
      j := NestedFrom(spans[1..], n);
      j := j + 1;
    }
  }

  lemma {:induction false} NestedNowhere(spans: seq<string>, j: nat)
    requires j < |spans| && Nested(spans) == []
    ensures Names(spans[j]) == []
  {
    if j > 0 {
      NestedNowhere(spans[1..], j - 1);
    }
  }

  /** Nothing is nested in the matches if there is nothing to be nested. */
  lemma NothingNested(kind: Kind, s: string)
    requires Sound(s) && Names(s) == []
    ensures Nested(Spans(kind, s)) == []
  {
    var nested := Nested(Spans(kind, s));
    if nested != [] {
      var j := NestedFrom(Spans(kind, s), nested[0]);
      SpanIsSound(kind, s, j);
    }
  }

  lemma BeforeIsSound(text: string, kind: Kind)
    requires NUL !in text
    ensures Sound(Before(text, kind))
  {
    PassesAreSound(text);
  }

  lemma BlockLedger(text: string)
    requires NUL !in text
    ensures multiset(Names(WithoutBlocks(text))) == multiset(Issued(text, Block))
  {
    TextIsSound(text);
    NothingNested(Block, text);
    PullConserves(Block, text);
    FirstPass(multiset(Names(WithoutBlocks(text))), multiset(Issued(text, Block)));
  }

  lemma CodeLedger(text: string)
    requires NUL !in text
    ensures multiset(Names(WithoutCode(text))) + multiset(Nested(SpansOf(text, Inline))) ==
            multiset(Issued(text, Block)) + multiset(Issued(text, Inline))
  {
    BeforeIsSound(text, Inline);
    BlockLedger(text);
    PullConserves(Inline, WithoutBlocks(text));
  }

  lemma SkeletonLedger(text: string)
    requires NUL !in text
    ensures Sound(Skeleton(text))
    ensures multiset(Names(Skeleton(text))) + multiset(Nested(SpansOf(text, Url))) ==
            multiset(Names(WithoutCode(text))) + multiset(Issued(text, Url))
  {
    BeforeIsSound(text, Url);
    PullConserves(Url, WithoutCode(text));
  }

  lemma UrlLedger(text: string)
    requires NUL !in text
    ensures Sound(Layout(text))
    ensures multiset(Names(Layout(text))) + multiset(Nested(SpansOf(text, Url))) ==
            multiset(Names(WithoutCode(text))) + multiset(Issued(text, Url))
  {
    SkeletonLedger(text);
    FormattingConserves(Skeleton(text));
  }

  lemma AddUp<T>(layout: multiset<T>, urls: multiset<T>, codes: multiset<T>, middle: multiset<T>,
                 a: multiset<T>, b: multiset<T>, c: multiset<T>)
    requires middle + codes == a + b && layout + urls == middle + c
    ensures layout + urls + codes == a + b + c
  {
    assert layout + urls + codes == middle + c + codes == (middle + codes) + c;
  }

  /**
   Every placeholder ever given out is, exactly once, either in the text when restoring begins,
   or inside an extracted address, or inside an extracted piece of inline code.
   */
  lemma Ledger(text: string)
    requires NUL !in text
    ensures Sound(Layout(text))
    ensures multiset(Names(Layout(text))) + multiset(Nested(SpansOf(text, Url)))
            + multiset(Nested(SpansOf(text, Inline))) ==
            multiset(Issued(text, Block)) + multiset(Issued(text, Inline)) + multiset(Issued(text, Url))
  {
    UrlLedger(text);
    CodeLedger(text);
    AddUp(multiset(Names(Layout(text))), multiset(Nested(SpansOf(text, Url))), multiset(Nested(SpansOf(text, Inline))),
          multiset(Names(WithoutCode(text))), multiset(Issued(text, Block)), multiset(Issued(text, Inline)),
          multiset(Issued(text, Url)));
  }

  lemma FirstPass(a: multiset<string>, b: multiset<string>)
    requires a + multiset([]) == multiset([]) + b
    ensures a == b
  {
    assert a + multiset([]) == a && multiset([]) + b == b;
  }

  // ---------- names ----------

  lemma IssuedNumber(text: string, kind: Kind, n: string) returns (k: nat)
    requires n in Issued(text, kind)
    ensures k < |SpansOf(text, kind)| && n == NameOf(kind, k) && Number(kind, n) == Some(k)
    ensures forall other :: other != kind ==> Number(other, n) == None
  {
    k :| k < |Issued(text, kind)| && Issued(text, kind)[k] == n;
    NumberOfName(kind, k);
    forall other | other != kind
      ensures Number(other, n) == None
    {
      NumberOfOtherName(other, kind, k);
    }
  }

  /** The names that may occur in addresses, and anywhere. */
  predicate IsCode(text: string, n: string) {
    n in Issued(text, Block) || n in Issued(text, Inline)
  }

  lemma InSum<T>(x: T, part: multiset<T>, other: multiset<T>, a: multiset<T>, b: multiset<T>)
    requires x in part && part + other == a + b
    ensures x in a || x in b
  {
    assert x in part + other;
  }

  lemma NamesOfLayout(text: string, n: string)
    requires NUL !in text && n in Names(Layout(text))
    ensures IsCode(text, n) || n in Issued(text, Url)
  {
    UrlLedger(text);
    InSum(n, multiset(Names(Layout(text))), multiset(Nested(SpansOf(text, Url))),
          multiset(Names(WithoutCode(text))), multiset(Issued(text, Url)));
    if n in Names(WithoutCode(text)) {
      NamesWithoutCode(text, n);
    }
  }

  lemma NamesWithoutCode(text: string, n: string)
    requires NUL !in text && n in Names(WithoutCode(text))
    ensures IsCode(text, n)
  {
    CodeLedger(text);
    InSum(n, multiset(Names(WithoutCode(text))), multiset(Nested(SpansOf(text, Inline))),
          multiset(Issued(text, Block)), multiset(Issued(text, Inline)));
  }

  /** Inline code can only enclose blocks, and an address only blocks and inline code. */
  lemma NamesOfSpan(text: string, kind: Kind, k: nat, n: string)
    requires NUL !in text && k < |SpansOf(text, kind)| && n in Names(SpansOf(text, kind)[k])
    ensures kind.Inline? ==> n in Issued(text, Block)
    ensures kind.Url? ==> IsCode(text, n)
    ensures !kind.Block?
  {
    BeforeIsSound(text, kind);
    SpanIsSound(kind, Before(text, kind), k);
    match kind
    case Block => TextIsSound(text);
    case Inline =>
      BlockLedger(text);
      assert n in multiset(Names(WithoutBlocks(text)));
    case Url => NamesWithoutCode(text, n);
  }

  // ---------- restoring ----------

  lemma {:induction false} NamesInHas(names: seq<string>, f: string -> string, m: string, n: string)
    requires m in names && n in Names(f(m))
    ensures n in NamesIn(names, f)
  {
    if m != names[0] {
      NamesInHas(names[1..], f, m, n);
    }
  }

  lemma {:induction false} NamesInFrom(names: seq<string>, f: string -> string, n: string) returns (m: string)
    requires n in NamesIn(names, f)
    ensures m in names && n in Names(f(m))
  {
    if n in Names(f(names[0])) {
      m := names[0];
    } else {
      m := NamesInFrom(names[1..], f, n);
    }
  }

  lemma HtmlIsFramed(text: string, kind: Kind, k: nat)
    requires NUL !in text && k < |SpansOf(text, kind)|
    ensures Framed(Html(kind, SpansOf(text, kind)[k]))
    ensures forall n :: n in Names(Html(kind, SpansOf(text, kind)[k])) <==> n in Names(SpansOf(text, kind)[k])
  {
    var span, html := SpansOf(text, kind)[k], Html(kind, SpansOf(text, kind)[k]);
    BeforeIsSound(text, kind);
    SpanIsSound(kind, Before(text, kind), k);
    match kind
    case Block =>
      TextIsSound(text);
      NothingNested(Block, text);
      NestedNowhere(SpansOf(text, Block), k);
      NothingReadIsNulFree(span);
      BlockHtmlIsFramed(span);
    case Inline =>
      InlineHtmlIsFramed(span);
      SameMembers(Names(html), Names(span));
    case Url =>
      UrlHtmlIsFramed(span);
      TwiceTheMembers(Names(html), Names(span));
  }

  lemma SameMembers(a: seq<string>, b: seq<string>)
    requires multiset(a) == multiset(b)
    ensures forall n :: n in a <==> n in b
  {
    assert forall n :: n in a <==> n in multiset(a);
    assert forall n :: n in b <==> n in multiset(b);
  }

  lemma TwiceTheMembers(a: seq<string>, b: seq<string>)
    requires multiset(a) == multiset(b) + multiset(b)
    ensures forall n :: n in a <==> n in b
  {
    assert forall n :: n in a <==> n in multiset(a);
    assert forall n :: n in b <==> n in multiset(b);
  }

  predicate IsIssued(text: string, n: string) {
    IsCode(text, n) || n in Issued(text, Url)
  }

  lemma IssuedAs(text: string, n: string) returns (own: Kind, k: nat)
    requires IsIssued(text, n)
    ensures k < |SpansOf(text, own)| && n == NameOf(own, k) && Number(own, n) == Some(k)
    ensures forall other :: other != own ==> Number(other, n) == None && n !in Issued(text, other)
  {
    own := if n in Issued(text, Block) then Block else if n in Issued(text, Inline) then Inline else Url;
    k := IssuedNumber(text, own, n);
    forall other | other != own
      ensures n !in Issued(text, other)
    {
      if n in Issued(text, other) {
        var j := IssuedNumber(text, other, n);
      }
    }
  }

  /** What a restoring pass puts for a placeholder: the stored piece, or the placeholder as it was. */
  lemma PassOnName(text: string, kind: Kind, missing: string, n: string)
    requires NUL !in text && IsIssued(text, n)
    ensures
      var out := Only(kind, Stored(text, kind, missing))(n);
      && Framed(out)
      && (Number(kind, n) == None ==> n !in Issued(text, kind) && out == Bracket(n) && Names(out) == [n])
      && (Number(kind, n).Some? ==>
            var k := Number(kind, n).value;
            k < |SpansOf(text, kind)| && n == NameOf(kind, k) && out == Html(kind, SpansOf(text, kind)[k]))
  {
    var own, k := IssuedAs(text, n);
    if own == kind {
      HtmlIsFramed(text, kind, k);
    } else {
      TagIsSound(own, k);
    }
  }

  /** A restoring pass over a sound text with issued names only. */
  lemma PassIsSound(text: string, kind: Kind, missing: string, t: string)
    requires NUL !in text && Sound(t) && !Mistaken(kind, t) && forall n :: n in Names(t) ==> IsIssued(text, n)
    ensures
      var f := Only(kind, Stored(text, kind, missing));
      var out := Restore(kind, t, Stored(text, kind, missing));
      && AllFramed(Names(t), f)
      && out == Substitute(t, f) && Sound(out) && Names(out) == NamesIn(Names(t), f)
  {
    var f := Only(kind, Stored(text, kind, missing));
    forall i | 0 <= i < |Names(t)|
      ensures Framed(f(Names(t)[i]))
    {
      PassOnName(text, kind, missing, Names(t)[i]);
    }
    RestoreIsSubstitute(kind, t, Stored(text, kind, missing));
    SubstituteIsSound(t, f);
  }

  /** After the first restoring pass no address is left, and only names that were given out remain. */
  lemma NamesWithUrls(text: string, missing: string)
    requires NUL !in text && !Mistaken(Url, Layout(text))
    ensures Sound(WithUrls(text, missing))
    ensures forall n :: n in Names(WithUrls(text, missing)) ==> IsCode(text, n)
  {
    UrlLedger(text);
    var names, f := Names(Layout(text)), Only(Url, Stored(text, Url, missing));
    forall n | n in names
      ensures IsIssued(text, n)
    {
      NamesOfLayout(text, n);
    }
    PassIsSound(text, Url, missing, Layout(text));
    forall n | n in NamesIn(names, f)
      ensures IsCode(text, n)
    {
      var m := NamesInFrom(names, f, n);
      PassOnName(text, Url, missing, m);
      match Number(Url, m)
      case None =>
      case Some(k) =>
        HtmlIsFramed(text, Url, k);
        NamesOfSpan(text, Url, k, n);
    }
  }

  /** After the second only inline code is left. */
  lemma NamesWithBlocks(text: string, missing: string)
    requires NUL !in text && Unmistaken(text, missing)
    ensures Sound(WithBlocks(text, missing))
    ensures forall n :: n in Names(WithBlocks(text, missing)) ==> n in Issued(text, Inline)
  {
    NamesWithUrls(text, missing);
    var t, f := WithUrls(text, missing), Only(Block, Stored(text, Block, missing));
    PassIsSound(text, Block, missing, t);
    forall n | n in NamesIn(Names(t), f)
      ensures n in Issued(text, Inline)
    {
      var m := NamesInFrom(Names(t), f, n);
      PassOnName(text, Block, missing, m);
      match Number(Block, m)
      case None =>
      case Some(k) =>
        HtmlIsFramed(text, Block, k);
        NamesOfSpan(text, Block, k, n);
    }
  }

  lemma InlineIsNeverMistaken(text: string, missing: string)
    requires NUL !in text && Unmistaken(text, missing)
    ensures Sound(WithBlocks(text, missing)) && !Mistaken(Inline, WithBlocks(text, missing))
  {
    NamesWithBlocks(text, missing);
    var names := Names(WithBlocks(text, missing));
    forall i | 0 <= i < |names|
      ensures Number(Inline, names[i]).Some?
    {
      var k := IssuedNumber(text, Inline, names[i]);
    }
    OwnKindIsNeverMistaken(Inline, WithBlocks(text, missing));
  }

  /**
   The exact condition, for every text without a NUL: each of the three restoring passes replaces the
   placeholders of its kind and nothing else, if and only if the first two mistake nothing.
   */
  lemma PassesRestoreExactly(text: string, missing: string)
    requires NUL !in text
    ensures
      Restores(Url, Layout(text)) && Restores(Block, WithUrls(text, missing))
      && Restores(Inline, WithBlocks(text, missing))
      <==> Unmistaken(text, missing)
  {
    UrlLedger(text);
    RestoresUnlessMistaken(Url, Layout(text));
    if !Mistaken(Url, Layout(text)) {
      NamesWithUrls(text, missing);
      RestoresUnlessMistaken(Block, WithUrls(text, missing));
      if Unmistaken(text, missing) {
        InlineIsNeverMistaken(text, missing);
        RestoresUnlessMistaken(Inline, WithBlocks(text, missing));
      }
    }
  }

  // ---------- when is nothing left over? ----------

  lemma InOther<T>(x: T, part: multiset<T>, other: multiset<T>, a: multiset<T>, b: multiset<T>)
    requires part + other == a + b && (x in a || x in b)
    ensures x in part || x in other
  {
    assert x in a + b;
  }

  /** Every address is in the text when restoring begins: none is ever inside another piece. */
  lemma UrlsAreInLayout(text: string, n: string)
    requires NUL !in text && n in Issued(text, Url)
    ensures n in Names(Layout(text))
  {
    UrlLedger(text);
    InOther(n, multiset(Names(Layout(text))), multiset(Nested(SpansOf(text, Url))),
            multiset(Names(WithoutCode(text))), multiset(Issued(text, Url)));
    if n in Nested(SpansOf(text, Url)) {
      var j := NestedFrom(SpansOf(text, Url), n);
      NamesOfSpan(text, Url, j, n);
      NotBoth(text, n, Url);
    }
  }

  lemma NotBoth(text: string, n: string, kind: Kind)
    requires n in Issued(text, kind)
    ensures forall other :: other != kind ==> n !in Issued(text, other)
  {
    var k := IssuedNumber(text, kind, n);
    forall other | other != kind
      ensures n !in Issued(text, other)
    {
      if n in Issued(text, other) {
        var j := IssuedNumber(text, other, n);
      }
    }
  }

  /** Every piece of inline code is in the text when restoring begins, or inside an address. */
  lemma CodeIsInLayout(text: string, n: string)
    requires NUL !in text && n in Issued(text, Inline)
    ensures n in Names(Layout(text)) || n in Nested(SpansOf(text, Url))
  {
    CodeLedger(text);
    InOther(n, multiset(Names(WithoutCode(text))), multiset(Nested(SpansOf(text, Inline))),
            multiset(Issued(text, Block)), multiset(Issued(text, Inline)));
    if n in Nested(SpansOf(text, Inline)) {
      var j := NestedFrom(SpansOf(text, Inline), n);
      NamesOfSpan(text, Inline, j, n);
      NotBoth(text, n, Inline);
    }
    UrlLedger(text);
    InOther(n, multiset(Names(Layout(text))), multiset(Nested(SpansOf(text, Url))),
            multiset(Names(WithoutCode(text))), multiset(Issued(text, Url)));
  }

  lemma LayoutIsIssued(text: string)
    requires NUL !in text
    ensures Sound(Layout(text)) && forall n :: n in Names(Layout(text)) ==> IsIssued(text, n)
  {
    UrlLedger(text);
    forall n | n in Names(Layout(text))
      ensures IsIssued(text, n)
    {
      NamesOfLayout(text, n);
    }
  }

  /** Every piece of inline code is still there when its own restoring pass begins. */
  lemma CodeReachesItsPass(text: string, missing: string, n: string)
    requires NUL !in text && Unmistaken(text, missing) && n in Issued(text, Inline)
    ensures n in Names(WithBlocks(text, missing))
  {
    var f := Only(Url, Stored(text, Url, missing));
    LayoutIsIssued(text);
    PassIsSound(text, Url, missing, Layout(text));
    var k := IssuedNumber(text, Inline, n);
    CodeIsInLayout(text, n);
    if n in Names(Layout(text)) {
      PassOnName(text, Url, missing, n);
      NamesInHas(Names(Layout(text)), f, n, n);
    } else {
      var j := NestedFrom(SpansOf(text, Url), n);
      var u := NameOf(Url, j);
      assert Issued(text, Url)[j] == u;
      UrlsAreInLayout(text, u);
      PassOnName(text, Url, missing, u);
      NumberOfName(Url, j);
      HtmlIsFramed(text, Url, j);
      NamesInHas(Names(Layout(text)), f, u, n);
    }
    NamesWithUrls(text, missing);
    PassIsSound(text, Block, missing, WithUrls(text, missing));
    PassOnName(text, Block, missing, n);
    NamesInHas(Names(WithUrls(text, missing)), Only(Block, Stored(text, Block, missing)), n, n);
  }

  lemma NulMeansNames(t: string)
    requires Sound(t)
    ensures NUL in t <==> Names(t) != []
  {
    if NUL in t {
      if Names(t) == [] {
        NothingReadIsNulFree(t);
      }
    } else {
      NulFreeReads(t);
    }
  }

  lemma ConvertedNames(text: string, missing: string)
    requires NUL !in text && Unmistaken(text, missing)
    ensures Sound(Converted(text, missing))
    ensures Names(Converted(text, missing)) ==
            NamesIn(Names(WithBlocks(text, missing)), Only(Inline, Stored(text, Inline, missing)))
  {
    NamesWithBlocks(text, missing);
    InlineIsNeverMistaken(text, missing);
    PassIsSound(text, Inline, missing, WithBlocks(text, missing));
  }

  /** A block inside inline code is restored too late. */
  lemma EnclosedBlockIsLeftOver(text: string, missing: string, k: nat)
    requires NUL !in text && Unmistaken(text, missing) && k < |SpansOf(text, Inline)| && NUL in SpansOf(text, Inline)[k]
    ensures NUL in Converted(text, missing)
  {
    var span, m := SpansOf(text, Inline)[k], NameOf(Inline, k);
    assert Issued(text, Inline)[k] == m;
    BeforeIsSound(text, Inline);
    SpanIsSound(Inline, Before(text, Inline), k);
    NulMeansNames(span);
    CodeReachesItsPass(text, missing, m);
    NumberOfName(Inline, k);
    PassOnName(text, Inline, missing, m);
    HtmlIsFramed(text, Inline, k);
    ConvertedNames(text, missing);
    NamesInHas(Names(WithBlocks(text, missing)), Only(Inline, Stored(text, Inline, missing)), m, Names(span)[0]);
    NulMeansNames(Converted(text, missing));
  }

  lemma LeftOverIsEnclosed(text: string, missing: string) returns (k: nat)
    requires NUL !in text && Unmistaken(text, missing) && NUL in Converted(text, missing)
    ensures k < |SpansOf(text, Inline)| && NUL in SpansOf(text, Inline)[k]
  {
    ConvertedNames(text, missing);
    NulMeansNames(Converted(text, missing));
    var n := Names(Converted(text, missing))[0];
    var f := Only(Inline, Stored(text, Inline, missing));
    var m := NamesInFrom(Names(WithBlocks(text, missing)), f, n);
    NamesWithBlocks(text, missing);
    PassOnName(text, Inline, missing, m);
    k := Number(Inline, m).value;
    HtmlIsFramed(text, Inline, k);
    BeforeIsSound(text, Inline);
    SpanIsSound(Inline, Before(text, Inline), k);
    NulMeansNames(SpansOf(text, Inline)[k]);
  }

  /** Every placeholder is gone in the end if and only if no inline code encloses a code block. */
  lemma NothingLeftOver(text: string, missing: string)
    requires NUL !in text && Unmistaken(text, missing)
    ensures NUL !in Converted(text, missing) <==>
            forall k :: 0 <= k < |SpansOf(text, Inline)| ==> NUL !in SpansOf(text, Inline)[k]
  {
    if NUL in Converted(text, missing) {
      var k := LeftOverIsEnclosed(text, missing);
    } else {
      forall k | 0 <= k < |SpansOf(text, Inline)|
        ensures NUL !in SpansOf(text, Inline)[k]
      {
        if NUL in SpansOf(text, Inline)[k] {
          EnclosedBlockIsLeftOver(text, missing, k);
        }
      }
    }
  }

  // ---------- when is everything there once? ----------

  /** No extracted piece holds the placeholder of another. */
  predicate Separate(text: string) {
    && (forall k :: 0 <= k < |SpansOf(text, Inline)| ==> NUL !in SpansOf(text, Inline)[k])
    && (forall k :: 0 <= k < |SpansOf(text, Url)| ==> NUL !in SpansOf(text, Url)[k])
  }

  lemma NestedMeansNul(text: string, kind: Kind)
    requires NUL !in text
    ensures Nested(SpansOf(text, kind)) == [] <==>
            forall k :: 0 <= k < |SpansOf(text, kind)| ==> NUL !in SpansOf(text, kind)[k]
  {
    var spans := SpansOf(text, kind);
    BeforeIsSound(text, kind);
    forall k | 0 <= k < |spans|
      ensures NUL in spans[k] <==> Names(spans[k]) != []
    {
      SpanIsSound(kind, Before(text, kind), k);
      NulMeansNames(spans[k]);
    }
    if Nested(spans) != [] {
      var k := NestedFrom(spans, Nested(spans)[0]);
    } else {
      forall k | 0 <= k < |spans|
        ensures NUL !in spans[k]
      {
        NestedNowhere(spans, k);
      }
    }
  }

  lemma NothingMissing(layout: multiset<string>, urls: seq<string>, codes: seq<string>, all: multiset<string>)
    requires layout + multiset(urls) + multiset(codes) == all
    ensures layout == all <==> urls == [] && codes == []
  {
    assert |all| == |layout| + |multiset(urls)| + |multiset(codes)|;
    assert |multiset(urls)| == |urls| && |multiset(codes)| == |codes|;
    if urls == [] && codes == [] {
      assert layout + multiset(urls) == layout;
      assert layout + multiset(codes) == layout;
    }
  }

  /**
   When restoring begins, the text holds every extracted piece exactly once if and only if
   no piece holds the placeholder of another.
   */
  lemma EachPieceOnce(text: string)
    requires NUL !in text
    ensures Separate(text) <==>
            multiset(Names(Layout(text))) ==
            multiset(Issued(text, Block)) + multiset(Issued(text, Inline)) + multiset(Issued(text, Url))
  {
    Ledger(text);
    NestedMeansNul(text, Inline);
    NestedMeansNul(text, Url);
    NothingMissing(multiset(Names(Layout(text))), Nested(SpansOf(text, Url)), Nested(SpansOf(text, Inline)),
                   multiset(Issued(text, Block)) + multiset(Issued(text, Inline)) + multiset(Issued(text, Url)));
  }

  // ---------- the three restoring passes as one ----------

  /** What the last two passes make of a placeholder. */
  function ShownLater(text: string, missing: string): string -> string {
    (n: string) =>
      Substitute(Only(Block, Stored(text, Block, missing))(n), Only(Inline, Stored(text, Inline, missing)))
  }

  /** What the three passes make of a placeholder of the layout. */
  function Shown(text: string, missing: string): string -> string {
    (n: string) => Substitute(Only(Url, Stored(text, Url, missing))(n), ShownLater(text, missing))
  }

  /** Restoring kind by kind is replacing every placeholder of the layout on the spot. */
  lemma RestoredInOneGo(text: string, missing: string)
    requires NUL !in text && Unmistaken(text, missing)
    ensures Converted(text, missing) == Substitute(Layout(text), Shown(text, missing))
  {
    var url, block := Only(Url, Stored(text, Url, missing)), Only(Block, Stored(text, Block, missing));
    var code := Only(Inline, Stored(text, Inline, missing));
    var rest := ShownLater(text, missing);
    LayoutIsIssued(text);
    PassIsSound(text, Url, missing, Layout(text));
    NamesWithUrls(text, missing);
    PassIsSound(text, Block, missing, WithUrls(text, missing));
    NamesWithBlocks(text, missing);
    InlineIsNeverMistaken(text, missing);
    PassIsSound(text, Inline, missing, WithBlocks(text, missing));
    SubstituteTwice(WithUrls(text, missing), block, code);
    SubstituteTwice(Layout(text), url, rest);
    SubstituteAgrees(Layout(text), n => Substitute(url(n), rest), Shown(text, missing));
    SubstituteAgrees(WithUrls(text, missing), n => Substitute(block(n), code), rest);
  }

  lemma SomeMember(names: seq<string>) returns (n: string)
    requires names != []
    ensures n in names
  {
    n := names[0];
  }

  lemma HtmlIsNulFree(text: string, kind: Kind, k: nat)
    requires NUL !in text && k < |SpansOf(text, kind)| && NUL !in SpansOf(text, kind)[k]
    ensures NUL !in Html(kind, SpansOf(text, kind)[k])
  {
    var html := Html(kind, SpansOf(text, kind)[k]);
    NulFreeReads(SpansOf(text, kind)[k]);
    HtmlIsFramed(text, kind, k);
    NulMeansNames(html);
    if Names(html) != [] {
      var n := SomeMember(Names(html));
    }
  }

  /** What a pass makes of a piece of its own kind and of another. */
  lemma PassOnPiece(text: string, pass: Kind, missing: string, kind: Kind, k: nat)
    requires NUL !in text && k < |SpansOf(text, kind)|
    ensures Only(pass, Stored(text, pass, missing))(NameOf(kind, k)) ==
            if pass == kind then Html(kind, SpansOf(text, kind)[k]) else Bracket(NameOf(kind, k))
  {
    var n := NameOf(kind, k);
    assert Issued(text, kind)[k] == n;
    PassOnName(text, pass, missing, n);
    NumberOfName(kind, k);
    if pass != kind {
      NumberOfOtherName(pass, kind, k);
    }
  }

  lemma ShownLaterAsStored(text: string, missing: string, kind: Kind, k: nat, html: string)
    requires NUL !in text && k < |SpansOf(text, kind)| && kind != Url
    requires html == Html(kind, SpansOf(text, kind)[k]) && NUL !in html
    ensures ShownLater(text, missing)(NameOf(kind, k)) == html
  {
    PassOnPiece(text, Block, missing, kind, k);
    PassOnPiece(text, Inline, missing, kind, k);
    NameOfIsName(kind, k);
    if kind == Block {
      SubstituteNothing(html, Only(Inline, Stored(text, Inline, missing)));
    } else {
      SubstituteBracket(NameOf(kind, k), Only(Inline, Stored(text, Inline, missing)));
    }
  }

  /** A piece that holds no placeholder is shown as it was stored. */
  lemma ShownAsStored(text: string, missing: string, kind: Kind, k: nat)
    requires NUL !in text && k < |SpansOf(text, kind)| && NUL !in SpansOf(text, kind)[k]
    ensures Shown(text, missing)(NameOf(kind, k)) == Html(kind, SpansOf(text, kind)[k])
  {
    var html, rest := Html(kind, SpansOf(text, kind)[k]), ShownLater(text, missing);
    HtmlIsNulFree(text, kind, k);
    PassOnPiece(text, Url, missing, kind, k);
    if kind == Url {
      SubstituteNothing(html, rest);
    } else {
      NameOfIsName(kind, k);
      SubstituteBracket(NameOf(kind, k), rest);
      ShownLaterAsStored(text, missing, kind, k, html);
    }
  }

  // ---------- what is looked up but was never stored ----------

  /** Every number that the scan looks up was given out. */
  predicate InRange(text: string, kind: Kind, t: string) {
    forall k :: k in Lookups(kind, t) ==> k < |SpansOf(text, kind)|
  }

  function Beyond(text: string, kind: Kind, ks: seq<nat>): nat {
    if ks == [] then 0 else (if ks[0] < |SpansOf(text, kind)| then 0 else 1) + Beyond(text, kind, ks[1..])
  }

  lemma {:induction false} BeyondIsOutOfRange(text: string, kind: Kind, ks: seq<nat>)
    ensures Beyond(text, kind, ks) == 0 <==> forall k :: k in ks ==> k < |SpansOf(text, kind)|
  {
    if ks != [] {
      BeyondIsOutOfRange(text, kind, ks[1..]);
      assert ks[0] in ks && forall k :: k in ks[1..] ==> k in ks;
      assert forall k :: k in ks ==> k == ks[0] || k in ks[1..];
    }
  }

  /** Each lookup out of range makes the result one longer if it yields one character instead of none. */
  lemma {:induction false} MissingLengthens(text: string, kind: Kind, t: string)
    ensures |Restore(kind, t, Stored(text, kind, "X"))| ==
            |Restore(kind, t, Stored(text, kind, ""))| + Beyond(text, kind, Lookups(kind, t))
    decreases |t|
  {
    if t != "" {
      match TagAt(kind, t)
      case Some((k, n)) =>
        MissingLengthens(text, kind, t[n..]);
        assert ([k] + Lookups(kind, t[n..]))[1..] == Lookups(kind, t[n..]);
      case None => MissingLengthens(text, kind, t[1..]);
    }
  }

  /** For any text: what an index out of range would yield makes no difference if and only if there is none. */
  lemma MissingMatters(text: string, kind: Kind, t: string)
    ensures (forall a, b :: Restore(kind, t, Stored(text, kind, a)) == Restore(kind, t, Stored(text, kind, b)))
            <==> InRange(text, kind, t)
  {
    MissingLengthens(text, kind, t);
    BeyondIsOutOfRange(text, kind, Lookups(kind, t));
    if InRange(text, kind, t) {
      forall a, b
        ensures Restore(kind, t, Stored(text, kind, a)) == Restore(kind, t, Stored(text, kind, b))
      {
        RestoreUsesLookups(kind, t, Stored(text, kind, a), Stored(text, kind, b));
      }
    }
  }

  lemma {:induction false} NumbersAreInRange(text: string, kind: Kind, names: seq<string>)
    requires forall i :: 0 <= i < |names| ==> IsIssued(text, names[i])
    ensures forall k :: k in Numbers(kind, names) ==> k < |SpansOf(text, kind)|
  {
    if names != [] {
      NumbersAreInRange(text, kind, names[1..]);
      var own, j := IssuedAs(text, names[0]);
    }
  }

  lemma UnmistakenIsInRange(text: string, kind: Kind, t: string)
    requires Sound(t) && !Mistaken(kind, t) && forall n :: n in Names(t) ==> IsIssued(text, n)
    ensures InRange(text, kind, t)
  {
    LookupsAreNumbers(kind, t);
    NumbersAreInRange(text, kind, Names(t));
  }

  /** Where nothing is mistaken, no pass looks up a number that was not given out. */
  lemma NothingIsMissing(text: string, a: string, b: string)
    requires NUL !in text && Unmistaken(text, a)
    ensures InRange(text, Url, Layout(text)) && InRange(text, Block, WithUrls(text, a))
    ensures InRange(text, Inline, WithBlocks(text, a))
    ensures Converted(text, a) == Converted(text, b) && Unmistaken(text, b)
  {
    LayoutIsIssued(text);
    UnmistakenIsInRange(text, Url, Layout(text));
    MissingMatters(text, Url, Layout(text));
    NamesWithUrls(text, a);
    UnmistakenIsInRange(text, Block, WithUrls(text, a));
    MissingMatters(text, Block, WithUrls(text, a));
    InlineIsNeverMistaken(text, a);
    NamesWithBlocks(text, a);
    UnmistakenIsInRange(text, Inline, WithBlocks(text, a));
    MissingMatters(text, Inline, WithBlocks(text, a));
  }

  // ---------- the function itself ----------

  /** What a pass pushes for a match: an address as it is, code already as HTML. */
  function Kept(kind: Kind, span: string): string {
    if kind == Url then span else Html(kind, span)
  }

  function KeptAll(kind: Kind, spans: seq<string>): (r: seq<string>)
    ensures |r| == |spans| && forall k :: 0 <= k < |r| ==> r[k] == Kept(kind, spans[k])
  {
    seq(|spans|, k requires 0 <= k < |spans| => Kept(kind, spans[k]))
  }

  /** What is done up to `i`, with what is still to come, is the whole. */
  ghost predicate Pulling(kind: Kind, text: string, i: nat, html: string, stored: seq<string>) {
    && i <= |text|
    && html + Rewrite(Extract(kind), text, i, |stored|) == Pulled(kind, text)
    && stored + KeptAll(kind, SpansFrom(kind, text, i, |stored|)) == KeptAll(kind, Spans(kind, text))
  }

  lemma PullStart(kind: Kind, text: string)
    ensures Pulling(kind, text, 0, "", [])
  {
    assert "" + Pulled(kind, text) == Pulled(kind, text);
    assert [] + KeptAll(kind, Spans(kind, text)) == KeptAll(kind, Spans(kind, text));
  }

  lemma KeptCons(kind: Kind, span: string, later: seq<string>)
    ensures KeptAll(kind, [span] + later) == [Kept(kind, span)] + KeptAll(kind, later)
  {
  }

  lemma TextStep(kind: Kind, text: string, i: nat, k: nat, html: string, h: Hit)
    requires i <= |text| && Next(Extract(kind), text, i, k) == Some(h)
    ensures html + text[i..h.at] + h.out + Rewrite(Extract(kind), text, h.end, k + 1) ==
            html + Rewrite(Extract(kind), text, i, k)
  {
    FourParts(html, text[i..h.at], h.out, Rewrite(Extract(kind), text, h.end, k + 1));
  }

  lemma ListStep(kind: Kind, text: string, i: nat, k: nat, stored: seq<string>, h: Hit)
    requires i <= |text| && Next(Extract(kind), text, i, k) == Some(h)
    ensures stored + [Kept(kind, text[h.at..h.end])] + KeptAll(kind, SpansFrom(kind, text, h.end, k + 1)) ==
            stored + KeptAll(kind, SpansFrom(kind, text, i, k))
  {
    var span, later := text[h.at..h.end], SpansFrom(kind, text, h.end, k + 1);
    KeptCons(kind, span, later);
    Associate(stored, [Kept(kind, span)], KeptAll(kind, later));
  }

  lemma PullStep(kind: Kind, text: string, i: nat, html: string, stored: seq<string>, h: Hit)
    requires Pulling(kind, text, i, html, stored) && Next(Extract(kind), text, i, |stored|) == Some(h)
    ensures Pulling(kind, text, h.end, html + text[i..h.at] + h.out, stored + [Kept(kind, text[h.at..h.end])])
  {
    TextStep(kind, text, i, |stored|, html, h);
    ListStep(kind, text, i, |stored|, stored, h);
  }

  lemma PullEnd(kind: Kind, text: string, i: nat, html: string, stored: seq<string>)
    requires Pulling(kind, text, i, html, stored) && Next(Extract(kind), text, i, |stored|) == None
    ensures html + text[i..] == Pulled(kind, text) && stored == KeptAll(kind, Spans(kind, text))
  {
    assert KeptAll(kind, []) == [] && stored + [] == stored;
  }

  /** One `text.replace(..., callback)`, whose callback pushes to a list and counts. */
  method Pull(kind: Kind, text: string) returns (html: string, stored: seq<string>)
    ensures html == Pulled(kind, text)
    ensures |stored| == |Spans(kind, text)|
    ensures forall k :: 0 <= k < |stored| ==> stored[k] == Kept(kind, Spans(kind, text)[k])
  {
    html, stored := "", [];
    var index, i := 0, 0;
    var next := Next(Extract(kind), text, 0, 0);
    PullStart(kind, text);
    while next.Some?
      invariant index == |stored| && Pulling(kind, text, i, html, stored)
      invariant next == Next(Extract(kind), text, i, index)
      decreases |text| - i
    {
      var h := next.value;
      PullStep(kind, text, i, html, stored, h);
      html := html + text[i..h.at] + h.out;
      stored := stored + [Kept(kind, text[h.at..h.end])];
      index, i := index + 1, h.end;
      next := Next(Extract(kind), text, i, index);
    }
    PullEnd(kind, text, i, html, stored);
    html := html + text[i..];
  }

  /** A list looked up by the number in a placeholder; an address becomes an anchor only now. */
  function FromList(kind: Kind, list: seq<string>, missing: string): nat -> string {
    (k: nat) => if k >= |list| then missing else if kind == Url then Html(Url, list[k]) else list[k]
  }

  lemma RestoreFromList(text: string, kind: Kind, list: seq<string>, missing: string, t: string)
    requires |list| == |SpansOf(text, kind)|
    requires forall k :: 0 <= k < |list| ==> list[k] == Kept(kind, SpansOf(text, kind)[k])
    ensures Restore(kind, t, FromList(kind, list, missing)) == Restore(kind, t, Stored(text, kind, missing))
  {
    RestoreUsesLookups(kind, t, FromList(kind, list, missing), Stored(text, kind, missing));
  }

  lemma {:induction false} NothingFormatted(rules: seq<Rule>)
    ensures Formatted("", rules) == ""
    decreases |rules|
  {
    if rules != [] {
      NothingFormatted(rules[1..]);
    }
  }

  lemma NothingConverted(missing: string)
    ensures Converted("", missing) == ""
  {
    NothingFormatted(FORMATTING);
  }

  /** `markdownToHtml` up to the last restoring pass. */
  method MarkdownToHtml(text: string, missing: string) returns (html: string)
    ensures html == Converted(text, missing)
  {
    if text == "" {
      NothingConverted(missing);
      return "";
    }
    var codeBlocks, inlineCode, urls;
    html, codeBlocks := Pull(Block, text);
    html, inlineCode := Pull(Inline, html);
    html, urls := Pull(Url, html);
    html := Formatted(html, FORMATTING);
    RestoreFromList(text, Url, urls, missing, html);
    html := Restore(Url, html, FromList(Url, urls, missing));
    RestoreFromList(text, Block, codeBlocks, missing, html);
    html := Restore(Block, html, FromList(Block, codeBlocks, missing));
    RestoreFromList(text, Inline, inlineCode, missing, html);
    html := Restore(Inline, html, FromList(Inline, inlineCode, missing));
  }
}
