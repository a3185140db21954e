/**
 Texts that nothing in `markdownToHtml` can mistake: no NUL, and no word of a placeholder directly
 followed by a digit. That is kept by every pass, outside placeholders.
 */
module PlainText {
  import opened Common
  import opened Marks
  import opened Rules
  import opened Rewriting
  import opened Restoring
  import opened Extraction
  import opened Escaping
  import opened Markdown
  import opened Conversion
  import opened Counting

  /** No NUL, and nothing that could be read as the name of a placeholder. */
  predicate Plain(text: string) {
    NUL !in text && forall p :: 0 <= p <= |text| ==> !Marked(text[p..])
  }

  // ---------- the rules ----------

  lemma WrappedIsClean(s: string, lo: nat, hi: nat, open: string, close: string)
    requires Sound(s) && Clean(s) && lo <= hi && Cut(s, lo) && Cut(s, hi) && IsMarkup(open) && IsMarkup(close)
    ensures Clean(open + s[lo..hi] + close)
  {
    SliceIsSound(s, lo, hi);
    SliceIsClean(s, lo, hi);
    WrapIsClean(open, s[lo..hi], close);
  }

  lemma LinkTextIsClean(address: string, caption: string)
    requires Sound(address) && Clean(address) && Sound(caption) && Clean(caption)
    ensures Clean(LinkText(address, caption))
  {
    var front := HREF + address + HREF_END;
    LinkMarkup();
    WrapIsSound(HREF, address, HREF_END);
    WrapIsClean(HREF, address, HREF_END);
    MarkupIsClean(A_END);
    AppendIsSound(front, caption);
    AppendIsClean(front, caption);
    AppendIsClean(front + caption, A_END);
  }

  lemma SwappedIsClean(s: string, i: nat, p: nat, q: nat)
    requires Sound(s) && Clean(s) && i < p && p + 2 < q < |s|
    requires Cut(s, i + 1) && Cut(s, p) && Cut(s, p + 2) && Cut(s, q)
    ensures Clean(LinkText(s[p + 2..q], s[i + 1..p]))
  {
    SliceIsSound(s, i + 1, p);
    SliceIsSound(s, p + 2, q);
    SliceIsClean(s, i + 1, p);
    SliceIsClean(s, p + 2, q);
    LinkTextIsClean(s[p + 2..q], s[i + 1..p]);
  }

  lemma LinkIsClean(s: string, i: nat)
    requires Sound(s) && Clean(s) && i < |s| && LinkAt(s, i).Some?
    ensures Clean(LinkAt(s, i).value.out)
  {
    var p, q := LinkShape(s, i);
    LinkCuts(s, i, p, q);
    SwappedIsClean(s, i, p, q);
  }

  lemma PrefixedIsClean(mark: string, open: string, close: string, s: string, i: nat)
    requires Sound(s) && Clean(s) && Breaks(mark) && IsMarkup(open) && IsMarkup(close)
    requires PrefixedAt(s, i, mark, open, close).Some?
    ensures Clean(PrefixedAt(s, i, mark, open, close).value.out)
  {
    BreaksAreNulFree(s, mark, i);
    WrappedIsClean(s, i + |mark|, LineEnd(s, i + |mark|), open, close);
  }

  lemma NumberedIsClean(open: string, close: string, s: string, i: nat)
    requires Sound(s) && Clean(s) && i < |s| && IsMarkup(open) && IsMarkup(close)
    requires NumberedAt(s, i, open, close).Some?
    ensures Clean(NumberedAt(s, i, open, close).value.out)
  {
    var lo, end := NumberedShape(open, close, s, i);
    WrappedIsClean(s, lo, end, open, close);
  }

  lemma PairedIsClean(mark: string, open: string, close: string, s: string, i: nat)
    requires Sound(s) && Clean(s) && Breaks(mark) && IsMarkup(open) && IsMarkup(close)
    requires PairedAt(s, i, mark, open, close).Some?
    ensures Clean(PairedAt(s, i, mark, open, close).value.out)
  {
    var lo, hi, end := PairedShape(mark, open, close, s, i);
    WrappedIsClean(s, lo, hi, open, close);
  }

  lemma ItemsIsClean(s: string, i: nat)
    requires Sound(s) && Clean(s) && i < |s| && ItemsAt(s, i).Some?
    ensures Clean(ItemsAt(s, i).value.out)
  {
    LinkMarkup();
    WrappedIsClean(s, i, ItemsEnd(s, i), UL, UL_END);
  }

  lemma ExtractIsClean(kind: Kind, s: string, i: nat, k: nat)
    requires i < |s| && MatchAt(Extract(kind), s, i, k).Some?
    ensures Clean(MatchAt(Extract(kind), s, i, k).value.out)
  {
    TagIsClean(kind, k);
    assert MatchAt(Extract(kind), s, i, k).value.out == Tag(kind, k);
  }

  lemma MatchIsClean(r: Rule, s: string, i: nat, k: nat)
    requires Sound(s) && Clean(s) && Proper(r) && i < |s| && MatchAt(r, s, i, k).Some?
    ensures Clean(MatchAt(r, s, i, k).value.out)
  {
    match r
    case Extract(kind) => ExtractIsClean(kind, s, i, k);
    case Entity(_, entity) => MarkupIsClean(entity);
    case Prefixed(mark, open, close) => PrefixedIsClean(mark, open, close, s, i);
    case Numbered(open, close) => NumberedIsClean(open, close, s, i);
    case Paired(mark, open, close) => PairedIsClean(mark, open, close, s, i);
    case Link => LinkIsClean(s, i);
    case Items => ItemsIsClean(s, i);
  }

  lemma {:induction false} NextIsClean(r: Rule, s: string, i: nat, k: nat)
    requires Sound(s) && Clean(s) && Proper(r) && Next(r, s, i, k).Some?
    ensures Clean(Next(r, s, i, k).value.out)
    decreases |s| - i
  {
    match MatchAt(r, s, i, k)
    case Some(_) => MatchIsClean(r, s, i, k);
    case None => NextIsClean(r, s, i + 1, k);
  }

  lemma ChunkIsClean(chunk: string, out: string, rest: string)
    requires Sound(chunk) && Clean(chunk) && Framed(out) && Clean(out) && Clean(rest)
    ensures Clean(chunk + out + rest)
  {
    AppendIsSound(chunk, out);
    AppendIsClean(chunk, out);
    AppendIsClean(chunk + out, rest);
  }

  /** A rewriting keeps a clean text clean. */
  lemma {:induction false} RewriteIsClean(r: Rule, s: string, i: nat, k: nat)
    requires Sound(s) && Clean(s) && Proper(r) && Cut(s, i)
    ensures Clean(Rewrite(r, s, i, k))
    decreases |s| - i
  {
    CutIsOutside(s, i);
    match Next(r, s, i, k)
    case None =>
      SliceIsClean(s, i, |s|);
      assert s[i..|s|] == s[i..];
    case Some(h) =>
      NextIsFair(r, s, i, k);
      NextIsClean(r, s, i, k);
      RewriteIsClean(r, s, h.end, k + 1);
      SliceIsSound(s, i, h.at);
      SliceIsClean(s, i, h.at);
      ChunkIsClean(s[i..h.at], h.out, Rewrite(r, s, h.end, k + 1));
  }

  lemma {:induction false} FormattedIsClean(s: string, rules: seq<Rule>)
    requires Sound(s) && Clean(s) && forall r :: r in rules ==> Formats(r)
    ensures Clean(Formatted(s, rules))
    decreases |rules|
  {
    if rules != [] {
      assert rules[0] in rules;
      PassConserves(rules[0], s);
      RewriteIsClean(rules[0], s, 0, 0);
      FormattedIsClean(ReplaceAll(rules[0], s), rules[1..]);
    }
  }

  // ---------- what is stored and put back ----------

  lemma EscapedIsClean(s: string)
    requires Sound(s) && Clean(s)
    ensures Clean(Escaped(s))
  {
    EscapedOnceIsClean(s, 0);
    EscapedOnceIsClean(EscapeOnce(s, 0), 1);
    EscapedOnceIsClean(EscapeOnce(EscapeOnce(s, 0), 1), 2);
  }

  lemma EscapedOnceIsClean(s: string, level: nat)
    requires level < 3 && Sound(s) && Clean(s)
    ensures Sound(EscapeOnce(s, level)) && Clean(EscapeOnce(s, level))
  {
    EntitiesFormat(level);
    PassConserves(Entity(Char(level), EntityOf(level)), s);
    RewriteIsClean(Entity(Char(level), EntityOf(level)), s, 0, 0);
  }

  /** An anchor of a clean address. */
  lemma AnchorIsClean(span: string)
    requires Sound(span) && Clean(span)
    ensures Clean(Html(Url, span))
  {
    EscapedConserves(span);
    EscapedIsClean(span);
    LinkTextIsClean(span, Escaped(span));
  }

  lemma {:induction false} SubstituteIsClean(t: string, f: string -> string)
    requires Sound(t) && Clean(t) && AllFramed(Names(t), f)
    requires forall i :: 0 <= i < |Names(t)| ==> Clean(f(Names(t)[i]))
    ensures Clean(Substitute(t, f))
    decreases |t|
  {
    if NUL in t {
      var text, name, rest := Lead(t);
      assert Names(t)[0] == name;
      assert forall i :: 0 <= i < |Names(rest)| ==> Names(rest)[i] == Names(t)[i + 1];
      LeadIsClean(text, name, rest);
      SubstituteIsClean(rest, f);
      SubstituteLead(text, name, rest, f);
      ChunkIsClean(text, f(name), Substitute(rest, f));
    } else {
      SubstituteNothing(t, f);
    }
  }

  lemma LeadIsClean(text: string, name: string, rest: string)
    requires NUL !in text && NUL !in name && Clean(text + Bracket(name) + rest)
    ensures Clean(text) && Clean(rest) && !Marked(rest)
  {
    var t, n := text + Bracket(name) + rest, |text + Bracket(name)|;
    LeadReads(text, name, rest);
    assert t[..0] == "" && t[0..|text|] == text;
    SliceIsClean(t, 0, |text|);
    assert t[..n] == text + Bracket(name) && t[n..|t|] == rest;
    SliceIsClean(t, n, |t|);
    assert rest[..0] == "" && rest[0..] == rest;
  }

  // ---------- nothing is mistaken ----------

  lemma UnmarkedIsNoTag(kind: Kind, rest: string)
    requires !Marked(rest)
    ensures TagAt(kind, [NUL] + rest) == None
  {
    var t, w := [NUL] + rest, Word(kind);
    assert !Resembles(rest, kind);
    if |t| > 1 + |w| {
      assert t[1..1 + |w|] == rest[..|w|] && t[1 + |w|] == rest[|w|];
    }
  }

  /** In a clean text no scan is misled. */
  lemma {:induction false} CleanIsNeverMistaken(kind: Kind, t: string)
    requires Sound(t) && Clean(t)
    ensures !Mistaken(kind, t)
    decreases |t|
  {
    if NUL in t {
      var text, name, rest := Lead(t);
      LeadIsClean(text, name, rest);
      UnmarkedIsNoTag(kind, rest);
      CleanIsNeverMistaken(kind, rest);
      MistakenLead(kind, text, name, rest);
    }
  }

  lemma PlainPassesAreClean(text: string)
    requires Plain(text)
    ensures Clean(WithoutBlocks(text)) && Clean(WithoutCode(text)) && Clean(Skeleton(text)) && Clean(Layout(text))
  {
    PassesAreSound(text);
    RewriteIsClean(Extract(Block), text, 0, 0);
    RewriteIsClean(Extract(Inline), WithoutBlocks(text), 0, 0);
    RewriteIsClean(Extract(Url), WithoutCode(text), 0, 0);
    EveryRuleFormats();
    FormattedIsClean(Skeleton(text), FORMATTING);
  }

  lemma PlainUrlsAreClean(text: string, missing: string)
    requires Plain(text)
    ensures Sound(WithUrls(text, missing)) && Clean(WithUrls(text, missing)) && !Mistaken(Url, Layout(text))
  {
    var t, f := Layout(text), Only(Url, Stored(text, Url, missing));
    PlainPassesAreClean(text);
    LayoutIsIssued(text);
    CleanIsNeverMistaken(Url, t);
    PassIsSound(text, Url, missing, t);
    forall i | 0 <= i < |Names(t)|
      ensures Clean(f(Names(t)[i]))
    {
      UrlPassIsClean(text, missing, Names(t)[i]);
    }
    SubstituteIsClean(t, f);
  }

  lemma UrlPassIsClean(text: string, missing: string, n: string)
    requires Plain(text) && IsIssued(text, n)
    ensures Clean(Only(Url, Stored(text, Url, missing))(n))
  {
    PassOnName(text, Url, missing, n);
    var own, k := IssuedAs(text, n);
    match Number(Url, n)
    case None => TagIsClean(own, k);
    case Some(j) =>
      PassesAreSound(text);
      PlainPassesAreClean(text);
      var lo, hi := SpanIsSlice(Url, WithoutCode(text), 0, 0, j);
      SliceIsSound(WithoutCode(text), lo, hi);
      SliceIsClean(WithoutCode(text), lo, hi);
      AnchorIsClean(SpansOf(text, Url)[j]);
  }

  /** Plain text is restored as meant, whatever it holds. */
  lemma PlainIsUnmistaken(text: string, missing: string)
    requires Plain(text)
    ensures Unmistaken(text, missing)
    ensures !Mistaken(Inline, WithoutCode(text)) && !Mistaken(Url, Skeleton(text))
  {
    PlainUrlsAreClean(text, missing);
    CleanIsNeverMistaken(Block, WithUrls(text, missing));
    PassesAreSound(text);
    PlainPassesAreClean(text);
    CleanIsNeverMistaken(Inline, WithoutCode(text));
    CleanIsNeverMistaken(Url, Skeleton(text));
  }

  /** For plain text undoing the three extraction passes, last one first, gives back the text. */
  lemma PlainExtractionRoundTrip(text: string)
    requires Plain(text)
    ensures
      var second := Restore(Url, Skeleton(text), ByNumber(Spans(Url, WithoutCode(text))));
      var first := Restore(Inline, second, ByNumber(Spans(Inline, WithoutBlocks(text))));
      Restore(Block, first, ByNumber(Spans(Block, text))) == text
  {
    PlainIsUnmistaken(text, "");
    ExtractionRoundTrip(text);
  }

  /** For plain text with separate pieces the conversion holds every piece exactly once, and no placeholder. */
  lemma PlainConversion(text: string, missing: string)
    requires Plain(text) && Separate(text)
    ensures Converted(text, missing) == Substitute(Layout(text), Piece(text))
    ensures multiset(Names(Layout(text))) ==
            multiset(Issued(text, Block)) + multiset(Issued(text, Inline)) + multiset(Issued(text, Url))
    ensures forall kind, k :: 0 <= k < |SpansOf(text, kind)| ==>
              Piece(text)(NameOf(kind, k)) == Html(kind, SpansOf(text, kind)[k]) && Times(text, missing, kind, k) == 1
    ensures NUL !in Converted(text, missing)
  {
    PlainIsUnmistaken(text, missing);
    ConvertedHoldsEachPieceOnce(text, missing);
  }
}
