/** Texts that `markdownToHtml` does not convert as meant, each followed through its passes. */
module Mishaps {
  import opened Common
  import opened Decimal
  import opened JsText
  import opened Marks
  import opened Rules
  import opened Rewriting
  import opened Restoring
  import opened Extraction
  import opened Markdown
  import opened Conversion
  import opened Counting
  import opened PlainText

  // ---------- following a pass ----------

  lemma {:induction false} NextSkips(r: Rule, s: string, i: nat, j: nat, k: nat)
    requires i <= j <= |s| && forall x :: i <= x < j ==> MatchAt(r, s, x, k).None?
    ensures Next(r, s, i, k) == Next(r, s, j, k)
    decreases j - i
  {
    if i < j {
      NextSkips(r, s, i + 1, j, k);
    }
  }

  /** No code starts where there is no back quote. */
  lemma SkipsTo(kind: Kind, s: string, i: nat, j: nat, k: nat)
    requires kind != Url && i <= j <= |s| && forall x :: i <= x < j ==> s[x] != '`'
    ensures Next(Extract(kind), s, i, k) == Next(Extract(kind), s, j, k)
  {
    forall x | i <= x < j
      ensures MatchAt(Extract(kind), s, x, k).None?
    {
      NoCodeHere(kind, s, x, k);
    }
    NextSkips(Extract(kind), s, i, j, k);
  }

  lemma NoCodeHere(kind: Kind, s: string, x: nat, k: nat)
    requires kind != Url && x < |s| && s[x] != '`'
    ensures MatchAt(Extract(kind), s, x, k).None?
  {
    NoBlockHere(s, x, x);
  }

  lemma NoBlockHere(s: string, x: nat, y: nat)
    requires x <= y < x + 3 && (y < |s| ==> s[y] != '`')
    ensures !Occurs(s, "```", x) && BlockEnd(s, x) == None
  {
    if Occurs(s, "```", x) {
      OccursAt(s, "```", x, y - x);
    }
  }

  /** A pass with a single match. */
  lemma OneMatch(kind: Kind, s: string, at: nat, end: nat)
    requires at < end <= |s| && Next(Extract(kind), s, 0, 0) == Some(Hit(at, end, Tag(kind, 0)))
    requires Next(Extract(kind), s, end, 1) == None
    ensures Pulled(kind, s) == s[..at] + Tag(kind, 0) + s[end..] && Spans(kind, s) == [s[at..end]]
  {
    assert Rewrite(Extract(kind), s, end, 1) == s[end..] && s[0..at] == s[..at];
    assert SpansFrom(kind, s, end, 1) == [] && [s[at..end]] + [] == [s[at..end]];
  }

  lemma NoMatch(kind: Kind, s: string)
    requires Next(Extract(kind), s, 0, 0) == None
    ensures Pulled(kind, s) == s && Spans(kind, s) == []
  {
  }

  lemma WithoutCapitalsIsPlain(text: string)
    requires forall i :: 0 <= i < |text| ==> text[i] != NUL && !('A' <= text[i] <= 'Z')
    ensures Plain(text)
  {
    forall p | 0 <= p <= |text|
      ensures !Marked(text[p..])
    {
      OnlyCapitalsAreMarked(text[p..]);
    }
  }

  /** A tag is made of NULs and name characters. */
  lemma TagText(kind: Kind, k: nat)
    ensures
      var t := Tag(kind, k);
      |t| > 2 && t[0] == NUL && forall i :: 0 <= i < |t| ==> !IsBreak(t[i])
  {
    NameOfIsName(kind, k);
  }

  // ---------- a block inside inline code ----------

  const ENCLOSED := "` ``` ``` `"

  lemma EnclosedWithoutBlocks()
    ensures WithoutBlocks(ENCLOSED) == "` " + Tag(Block, 0) + " `"
  {
    var s := ENCLOSED;
    NoBlockHere(s, 0, 1);
    NoBlockHere(s, 1, 1);
    NoBlockHere(s, 5, 5);
    assert s[2..5] == "```" && s[6..9] == "```";
    assert Find(s, "```", 5) == Some(6);
    NextSkips(Extract(Block), s, 0, 2, 0);
    NoBlockHere(s, 9, 9);
    NoBlockHere(s, 10, 11);
    NextSkips(Extract(Block), s, 9, 11, 1);
    OneMatch(Block, s, 2, 9);
    assert s[..2] == "` " && s[9..] == " `";
  }

  /** A text that is one piece of inline code. */
  lemma AllInline(s: string)
    requires |s| >= 3 && s[0] == '`' && Last(s) == '`' && forall x :: 1 <= x < |s| - 1 ==> s[x] != '`'
    ensures Spans(Inline, s) == [s]
  {
    InlineIsUnbroken(s, 0, |s|);
    assert InlineAt(s, 0, 0) == Some(Hit(0, |s|, Tag(Inline, 0)));
    OneMatch(Inline, s, 0, |s|);
    assert s[0..|s|] == s;
  }

  lemma QuotedTag(tag: string)
    requires tag != "" && tag[0] == NUL && forall i :: 0 <= i < |tag| ==> tag[i] != '`'
    ensures Spans(Inline, "` " + tag + " `") == ["` " + tag + " `"] && NUL in "` " + tag + " `"
  {
    var s := "` " + tag + " `";
    assert forall x :: 2 <= x < |s| - 2 ==> s[x] == tag[x - 2];
    assert s[2] == NUL && s[1] == ' ' && s[|s| - 2] == ' ';
    AllInline(s);
  }

  /** Its block is gone for good: the converted text still holds the placeholder. */
  lemma EnclosedBlockStaysMarked(missing: string)
    ensures Plain(ENCLOSED) && NUL in Converted(ENCLOSED, missing)
  {
    WithoutCapitalsIsPlain(ENCLOSED);
    EnclosedWithoutBlocks();
    TagText(Block, 0);
    QuotedTag(Tag(Block, 0));
    PlainIsUnmistaken(ENCLOSED, missing);
    EnclosedBlockIsLeftOver(ENCLOSED, missing, 0);
  }

  // ---------- inline code inside an address ----------

  const IN_ADDRESS := "http://`a`"

  lemma AddressWithoutCode()
    ensures WithoutCode(IN_ADDRESS) == "http://" + Tag(Inline, 0) && |SpansOf(IN_ADDRESS, Inline)| == 1
  {
    var s := IN_ADDRESS;
    SkipsTo(Block, s, 0, 7, 0);
    NoBlockHere(s, 7, 8);
    NoBlockHere(s, 8, 8);
    NoBlockHere(s, 9, 10);
    NextSkips(Extract(Block), s, 7, 10, 0);
    NoMatch(Block, s);
    SkipsTo(Inline, s, 0, 7, 0);
    InlineIsUnbroken(s, 7, 10);
    OneMatch(Inline, s, 7, 10);
    assert s[..7] == "http://" && s[10..] == "";
  }

  /** A text that is one address. */
  lemma AllAddress(tail: string)
    requires tail != "" && forall i :: 0 <= i < |tail| ==> !IsSpace(tail[i])
    ensures Spans(Url, "http://" + tail) == ["http://" + tail]
  {
    var s := "http://" + tail;
    assert s[0..7] == "http://";
    assert forall x :: 7 <= x < |s| ==> s[x] == tail[x - 7];
    UrlIsUnbroken(s, 0, |s|);
    assert UrlAt(s, 0, 0) == Some(Hit(0, |s|, Tag(Url, 0)));
    OneMatch(Url, s, 0, |s|);
    assert s[0..|s|] == s;
  }

  lemma TagIsNested(kind: Kind, k: nat)
    ensures NameOf(kind, k) in Nested(["http://" + Tag(kind, k)])
  {
    var s := "http://" + Tag(kind, k);
    NulFreeReads("http://");
    TagIsSound(kind, k);
    ReadAppend("http://", Tag(kind, k));
    assert Names(s) == [NameOf(kind, k)];
    NestedIn([s], 0, NameOf(kind, k));
  }

  lemma TwiceWhenNested(text: string, missing: string, kind: Kind, k: nat)
    requires Plain(text) && k < |SpansOf(text, kind)| && SpansOf(text, Url) == ["http://" + Tag(kind, k)]
    ensures Times(text, missing, kind, k) == 2
  {
    TagIsNested(kind, k);
    PlainIsUnmistaken(text, missing);
    TimesRestored(text, missing, kind, k);
  }

  lemma InAddressIsAddress()
    ensures SpansOf(IN_ADDRESS, Url) == ["http://" + Tag(Inline, 0)]
  {
    AddressWithoutCode();
    SpansOfAddress(IN_ADDRESS, Tag(Inline, 0));
  }

  lemma SpansOfAddress(text: string, tag: string)
    requires WithoutCode(text) == "http://" + tag && tag == Tag(Inline, 0)
    ensures SpansOf(text, Url) == ["http://" + tag]
  {
    TagText(Inline, 0);
    AllAddress(tag);
  }

  lemma InAddressIsPlain()
    ensures Plain(IN_ADDRESS) && |SpansOf(IN_ADDRESS, Inline)| == 1
  {
    WithoutCapitalsIsPlain(IN_ADDRESS);
    AddressWithoutCode();
  }

  /** The piece of code is put into the text twice. */
  lemma CodeInAddressComesTwice(missing: string)
    ensures Plain(IN_ADDRESS) && |SpansOf(IN_ADDRESS, Inline)| == 1 && Times(IN_ADDRESS, missing, Inline, 0) == 2
  {
    var text := IN_ADDRESS;
    InAddressIsPlain();
    InAddressIsAddress();
    TwiceWhenNested(text, missing, Inline, 0);
  }

  // ---------- text that looks like a name ----------

  /** Nothing but NULs and name characters. */
  predicate Bare(s: string) {
    forall i :: 0 <= i < |s| ==> !IsBreak(s[i])
  }

  lemma NothingMatchesBare(r: Rule, s: string, i: nat, k: nat)
    requires Bare(s) && Proper(r) && i < |s|
    ensures MatchAt(r, s, i, k).None?
  {
    match r
    case Extract(Block) => BareHasNoWord(s, "```", i);
    case Prefixed(mark, _, _) => BareHasNoMark(s, mark, i);
    case Paired(mark, _, _) => BareHasNoMark(s, mark, i);
    case Numbered(_, _) => BareHasNoWord(s, ". ", Run(s, i, c => IsDigit(c)));
    case Extract(Url) => BareHasNoUrl(s, i, k);
    case _ =>
  }

  lemma BareHasNoWord(s: string, word: string, i: nat)
    requires Bare(s) && word != "" && IsBreak(word[0])
    ensures !Occurs(s, word, i)
  {
    if Occurs(s, word, i) {
      OccursAt(s, word, i, 0);
    }
  }

  lemma BareHasNoMark(s: string, mark: string, i: nat)
    requires Bare(s) && Breaks(mark)
    ensures !Occurs(s, mark, i)
  {
    BareHasNoWord(s, mark, i);
  }

  lemma BareHasNoUrl(s: string, i: nat, k: nat)
    requires Bare(s) && i < |s|
    ensures UrlAt(s, i, k).None?
  {
    BareHasNoWord(s, "http://", i);
    BareHasNoWord(s, "https://", i);
    BareHasNoWord(s, "file://", i);
  }

  /** No rule changes such a text. */
  lemma BareStays(r: Rule, s: string)
    requires Bare(s) && Proper(r)
    ensures Rewrite(r, s, 0, 0) == s && Next(r, s, 0, 0) == None
  {
    forall x | 0 <= x < |s|
      ensures MatchAt(r, s, x, 0).None?
    {
      NothingMatchesBare(r, s, x, 0);
    }
    NextSkips(r, s, 0, |s|, 0);
  }

  lemma {:induction false} BareStaysFormatted(s: string, rules: seq<Rule>)
    requires Bare(s) && forall r :: r in rules ==> Formats(r)
    ensures Formatted(s, rules) == s
    decreases |rules|
  {
    if rules != [] {
      assert rules[0] in rules;
      BareStays(rules[0], s);
      BareStaysFormatted(s, rules[1..]);
    }
  }

  /** Two code blocks with the name of address `k` between them. */
  function Between(u: string, k: nat, v: string): string {
    "```" + u + "```" + NameOf(Url, k) + "```" + v + "```"
  }

  lemma BlockThere(before: string, u: string, after: string)
    requires '`' !in u
    ensures BlockEnd(before + "```" + u + "```" + after, |before|) == Some(|before| + |u| + 6)
  {
    var s, i := before + "```" + u + "```" + after, |before|;
    assert s[i..i + 3] == "```" && s[i + 3 + |u|..i + 6 + |u|] == "```";
    forall j | i + 3 <= j < i + 3 + |u|
      ensures !Occurs(s, "```", j)
    {
      assert s[j] == u[j - i - 3] && u[j - i - 3] in u;
      NoBlockHere(s, j, j);
    }
    BlockIsNearest(s, i, i + |u| + 6);
  }

  lemma RewriteHit(r: Rule, s: string, i: nat, k: nat, h: Hit)
    requires i <= |s| && Next(r, s, i, k) == Some(h)
    ensures Rewrite(r, s, i, k) == s[i..h.at] + h.out + Rewrite(r, s, h.end, k + 1)
  {
  }

  lemma Glue(a: string, x: string, b: string)
    ensures "" + a + (x + b + "") == a + (x + b)
  {
  }

  /** Two matches and what is between them. */
  lemma TwoMatches(kind: Kind, s: string, p: nat, q: nat)
    requires p <= q < |s|
    requires Next(Extract(kind), s, 0, 0) == Some(Hit(0, p, Tag(kind, 0)))
    requires Next(Extract(kind), s, p, 1) == Some(Hit(q, |s|, Tag(kind, 1)))
    ensures Pulled(kind, s) == Tag(kind, 0) + (s[p..q] + Tag(kind, 1))
  {
    RewriteHit(Extract(kind), s, 0, 0, Hit(0, p, Tag(kind, 0)));
    RewriteHit(Extract(kind), s, p, 1, Hit(q, |s|, Tag(kind, 1)));
    assert Rewrite(Extract(kind), s, |s|, 2) == "" && s[0..0] == "";
    Glue(Tag(kind, 0), s[p..q], Tag(kind, 1));
  }

  lemma Regroup(q: string, u: string, n: string, v: string)
    ensures q + u + q + n + q + v + q == "" + q + u + q + (n + q + v + q)
  {
  }

  lemma NothingBehind(s: string)
    ensures s + "" == s
  {
  }

  lemma BetweenLength(u: string, k: nat, v: string)
    ensures |Between(u, k, v)| == |u| + |NameOf(Url, k)| + |v| + 12
    ensures |"```" + u + "```" + NameOf(Url, k)| == |u| + 6 + |NameOf(Url, k)|
  {
  }

  lemma FirstBlock(u: string, k: nat, v: string)
    requires '`' !in u
    ensures BlockEnd(Between(u, k, v), 0) == Some(|u| + 6)
  {
    var after := NameOf(Url, k) + "```" + v + "```";
    BlockThere("", u, after);
    Regroup("```", u, NameOf(Url, k), v);
  }

  lemma SecondBlock(u: string, k: nat, v: string)
    requires '`' !in v
    ensures BlockEnd(Between(u, k, v), |u| + 6 + |NameOf(Url, k)|) == Some(|Between(u, k, v)|)
  {
    var before := "```" + u + "```" + NameOf(Url, k);
    BlockThere(before, v, "");
    NothingBehind(Between(u, k, v));
    BetweenLength(u, k, v);
  }

  lemma BetweenMiddle(u: string, k: nat, v: string)
    ensures
      var p, q := |u| + 6, |u| + 6 + |NameOf(Url, k)|;
      q + 6 <= |Between(u, k, v)| && Between(u, k, v)[p..q] == NameOf(Url, k)
  {
  }

  /** Two blocks with bare text between them. */
  lemma TwoBlocks(s: string, p: nat, q: nat, name: string)
    requires p <= q < |s| && BlockEnd(s, 0) == Some(p) && BlockEnd(s, q) == Some(|s|)
    requires s[p..q] == name && AllNameChars(name)
    ensures WithoutBlocks(s) == Bracket(NameOf(Block, 0)) + (name + Bracket(NameOf(Block, 1)))
  {
    forall x | p <= x < q
      ensures s[x] != '`'
    {
      assert s[x] == name[x - p];
    }
    SkipsTo(Block, s, p, q, 1);
    BlockNext(s, 0, p, 0);
    BlockNext(s, q, |s|, 1);
    TwoMatches(Block, s, p, q);
  }

  lemma BlockNext(s: string, i: nat, e: nat, k: nat)
    requires i < |s| && BlockEnd(s, i) == Some(e)
    ensures Next(Extract(Block), s, i, k) == Some(Hit(i, e, Tag(Block, k)))
  {
    assert MatchAt(Extract(Block), s, i, k) == BlockAt(s, i, k);
  }

  lemma BetweenWithoutBlocks(u: string, k: nat, v: string)
    requires '`' !in u && '`' !in v
    ensures WithoutBlocks(Between(u, k, v)) == Bracket(NameOf(Block, 0)) + (NameOf(Url, k) + Bracket(NameOf(Block, 1)))
  {
    FirstBlock(u, k, v);
    SecondBlock(u, k, v);
    BetweenMiddle(u, k, v);
    NameOfIsName(Url, k);
    TwoBlocks(Between(u, k, v), |u| + 6, |u| + 6 + |NameOf(Url, k)|, NameOf(Url, k));
  }

  /** The passes after the first leave a bare text as it is, and find no address in it. */
  lemma BareLayout(text: string)
    requires Bare(WithoutBlocks(text))
    ensures Layout(text) == WithoutBlocks(text) && SpansOf(text, Url) == []
  {
    var s := WithoutBlocks(text);
    BareStays(Extract(Inline), s);
    BareStays(Extract(Url), s);
    NoMatch(Inline, s);
    NoMatch(Url, s);
    EveryRuleFormats();
    BareStaysFormatted(s, FORMATTING);
  }

  lemma BareBetween(a: string, x: string, c: string)
    requires AllNameChars(a) && AllNameChars(x) && AllNameChars(c)
    ensures Bare(Bracket(a) + (x + Bracket(c)))
  {
  }

  /** A scan over one placeholder that it does not know. */
  lemma RestoreOther(kind: Kind, name: string, stored: nat -> string)
    requires NUL !in name && Number(kind, name).None?
    ensures Restore(kind, Bracket(name), stored) == Bracket(name)
  {
    TagAtOther(kind, name, "");
    NoTagWithoutNul(kind, "");
    RestoreKept(kind, name, "", stored);
    assert Bracket(name) + "" == Bracket(name);
  }

  /** Two names of one kind with something in between are no name of a placeholder. */
  lemma RunTogether(own: Kind, other: Kind, middle: string)
    requires own != other
    ensures
      var name := NameOf(own, 0) + middle + NameOf(own, 1);
      Number(own, name).None? && Number(other, name).None?
  {
    var w, first := Word(own), NameOf(own, 0);
    var name := first + middle + NameOf(own, 1);
    WordsDiffer(own, other);
    assert name[0] == w[0] && name[|first| + |middle|] == w[0];
    assert |name| > |Word(other)| ==> name[..|Word(other)|][0] == name[0];
  }

  /** The scan for `kind` takes the text for a placeholder, and both real ones are broken by it. */
  lemma TakenForTag(kind: Kind, a: string, k: nat, c: string, stored: nat -> string)
    requires NUL !in a && NUL !in c && Number(kind, a).None?
    ensures Restore(kind, Bracket(a) + (NameOf(kind, k) + Bracket(c)), stored) == Bracket(a + stored(k) + c)
  {
    TextMistakenForTag(kind, a, k, c, "", stored);
    assert Bracket(c) + "" == Bracket(c) && [NUL] + "" == [NUL];
    NoTagWithoutNul(kind, "");
    RestoreStep(kind, NUL, "", stored);
    RestoreCopies(kind, c, [NUL], stored);
    Rebracket(a, stored(k), c);
  }

  lemma Rebracket(a: string, x: string, c: string)
    ensures [NUL] + (a + (x + (c + [NUL]))) == Bracket(a + x + c)
    ensures [NUL] + "" == [NUL]
  {
  }

  lemma BetweenLayout(u: string, k: nat, v: string)
    requires '`' !in u && '`' !in v
    ensures
      var text := Between(u, k, v);
      && Layout(text) == Bracket(NameOf(Block, 0)) + (NameOf(Url, k) + Bracket(NameOf(Block, 1)))
      && SpansOf(text, Url) == []
  {
    BetweenWithoutBlocks(u, k, v);
    NameOfIsName(Block, 0);
    NameOfIsName(Block, 1);
    NameOfIsName(Url, k);
    BareBetween(NameOf(Block, 0), NameOf(Url, k), NameOf(Block, 1));
    BareLayout(Between(u, k, v));
  }

  /**
   Two code blocks with the name of an address between them, and no address in the text: the scan
   looks the address up all the same. In the source that throws; whatever it gave instead, `missing`,
   the blocks would be lost.
   */
  lemma NameBetweenBlocksIsLookedUp(u: string, k: nat, v: string, missing: string)
    requires '`' !in u && '`' !in v && NUL !in missing
    ensures SpansOf(Between(u, k, v), Url) == []
    ensures Converted(Between(u, k, v), missing) == Bracket(NameOf(Block, 0) + missing + NameOf(Block, 1))
  {
    var text, name := Between(u, k, v), NameOf(Block, 0) + missing + NameOf(Block, 1);
    BetweenLayout(u, k, v);
    NameOfIsName(Block, 0);
    NameOfIsName(Block, 1);
    NumberOfOtherName(Url, Block, 0);
    TakenForTag(Url, NameOf(Block, 0), k, NameOf(Block, 1), Stored(text, Url, missing));
    assert WithUrls(text, missing) == Bracket(name);
    RunTogether(Block, Inline, missing);
    RestoreOther(Block, name, Stored(text, Block, missing));
    RestoreOther(Inline, name, Stored(text, Inline, missing));
  }

  /** So what an index out of range yields does matter for such a text. */
  lemma MissingAddressMatters()
    ensures Converted(Between("a", 0, "b"), "") != Converted(Between("a", 0, "b"), "X")
  {
    NameBetweenBlocksIsLookedUp("a", 0, "b", "");
    NameBetweenBlocksIsLookedUp("a", 0, "b", "X");
    var first, second := NameOf(Block, 0), NameOf(Block, 1);
    assert |Bracket(first + "" + second)| + 1 == |Bracket(first + "X" + second)|;
  }

  // ---------- the name of a block between two pieces of inline code ----------

  function BetweenCode(u: string, k: nat, v: string): string {
    "`" + u + "`" + NameOf(Block, k) + "`" + v + "`"
  }

  lemma NoTwoQuotes(s: string, x: nat)
    requires forall y :: 0 <= y < |s| - 1 ==> s[y] != '`' || s[y + 1] != '`'
    ensures !Occurs(s, "```", x)
  {
    if x < |s| && s[x] != '`' {
      NoBlockHere(s, x, x);
    } else {
      NoBlockHere(s, x, x + 1);
    }
  }

  lemma NoBlocks(s: string)
    requires forall y :: 0 <= y < |s| - 1 ==> s[y] != '`' || s[y + 1] != '`'
    ensures Pulled(Block, s) == s && Spans(Block, s) == []
  {
    forall x | 0 <= x < |s|
      ensures MatchAt(Extract(Block), s, x, 0).None?
    {
      NoTwoQuotes(s, x);
    }
    NextSkips(Extract(Block), s, 0, |s|, 0);
    NoMatch(Block, s);
  }

  /** Where the back quotes of such a text are. */
  lemma QuotesOfBetweenCode(u: string, k: nat, v: string)
    requires '`' !in u && '`' !in v && u != "" && v != ""
    ensures
      var s, n := BetweenCode(u, k, v), NameOf(Block, k);
      var p := |u| + 2;
      var q := p + |n|;
      && p < q && |s| == q + |v| + 2 && s[p..q] == n
      && forall x :: 0 <= x < |s| ==> (s[x] == '`' <==> x == 0 || x == p - 1 || x == q || x == |s| - 1)
  {
    var s, n := BetweenCode(u, k, v), NameOf(Block, k);
    var p := |u| + 2;
    var q := p + |n|;
    NameOfIsName(Block, k);
    forall x | 0 <= x < |s|
      ensures s[x] == '`' <==> x == 0 || x == p - 1 || x == q || x == |s| - 1
    {
      if 1 <= x < p - 1 {
        assert s[x] == u[x - 1] && u[x - 1] in u;
      } else if p <= x < q {
        assert s[x] == n[x - p] && IsNameChar(n[x - p]);
      } else if q < x < |s| - 1 {
        assert s[x] == v[x - q - 1] && v[x - q - 1] in v;
      }
    }
  }

  /** Two pieces of inline code with a name between them. */
  lemma TwoCodes(s: string, p: nat, q: nat, name: string)
    requires 3 <= p < q && q + 3 <= |s| && s[p..q] == name
    requires forall x :: 0 <= x < |s| ==> (s[x] == '`' <==> x == 0 || x == p - 1 || x == q || x == |s| - 1)
    ensures SpansOf(s, Block) == []
    ensures WithoutCode(s) == Bracket(NameOf(Inline, 0)) + (name + Bracket(NameOf(Inline, 1)))
  {
    NoBlocks(s);
    InlineIsUnbroken(s, 0, p);
    InlineIsUnbroken(s, q, |s|);
    SkipsTo(Inline, s, p, q, 1);
    InlineNext(s, 0, p, 0);
    InlineNext(s, q, |s|, 1);
    TwoMatches(Inline, s, p, q);
  }

  lemma InlineNext(s: string, i: nat, e: nat, k: nat)
    requires i < |s| && InlineEnd(s, i) == Some(e)
    ensures Next(Extract(Inline), s, i, k) == Some(Hit(i, e, Tag(Inline, k)))
  {
    assert MatchAt(Extract(Inline), s, i, k) == InlineAt(s, i, k);
  }

  lemma BetweenCodeWithoutCode(u: string, k: nat, v: string)
    requires '`' !in u && '`' !in v && u != "" && v != ""
    ensures
      var text := BetweenCode(u, k, v);
      && SpansOf(text, Block) == []
      && WithoutCode(text) == Bracket(NameOf(Inline, 0)) + (NameOf(Block, k) + Bracket(NameOf(Inline, 1)))
  {
    QuotesOfBetweenCode(u, k, v);
    TwoCodes(BetweenCode(u, k, v), |u| + 2, |u| + 2 + |NameOf(Block, k)|, NameOf(Block, k));
  }

  /** The passes after the second leave a bare text as it is, and find no address in it. */
  lemma BareCodeLayout(text: string)
    requires Bare(WithoutCode(text))
    ensures Layout(text) == WithoutCode(text) && SpansOf(text, Url) == []
  {
    var s := WithoutCode(text);
    BareStays(Extract(Url), s);
    NoMatch(Url, s);
    EveryRuleFormats();
    BareStaysFormatted(s, FORMATTING);
  }

  lemma BetweenCodeLayout(u: string, k: nat, v: string)
    requires '`' !in u && '`' !in v && u != "" && v != ""
    ensures
      Layout(BetweenCode(u, k, v)) == Bracket(NameOf(Inline, 0)) + (NameOf(Block, k) + Bracket(NameOf(Inline, 1)))
  {
    BetweenCodeWithoutCode(u, k, v);
    NameOfIsName(Inline, 0);
    NameOfIsName(Inline, 1);
    NameOfIsName(Block, k);
    BareBetween(NameOf(Inline, 0), NameOf(Block, k), NameOf(Inline, 1));
    BareCodeLayout(BetweenCode(u, k, v));
  }

  /** A scan that knows none of the names leaves them and what is between them. */
  lemma RestorePasses(kind: Kind, a: string, x: string, c: string, stored: nat -> string)
    requires NUL !in a && NUL !in x && NUL !in c
    requires Number(kind, a).None? && Number(kind, x).None? && Number(kind, c).None?
    ensures Restore(kind, Bracket(a) + (x + Bracket(c)), stored) == Bracket(a) + (x + Bracket(c))
  {
    MisledByName(kind, a, x, c + [NUL]);
    assert x + [NUL] + (c + [NUL]) == x + Bracket(c);
    RestoreLead(kind, "", a, x + Bracket(c), stored);
    RestoreCopies(kind, x, Bracket(c), stored);
    RestoreOther(kind, c, stored);
    EmptyFront(Bracket(a), x + Bracket(c));
  }

  lemma EmptyFront(a: string, b: string)
    ensures "" + a + b == a + b
  {
  }

  /**
   Two pieces of inline code with the name of a block between them, and no block in the text: the scan
   looks the block up, and both pieces of code are lost.
   */
  lemma NameBetweenCodesIsLookedUp(u: string, k: nat, v: string, missing: string)
    requires '`' !in u && '`' !in v && u != "" && v != "" && NUL !in missing
    ensures SpansOf(BetweenCode(u, k, v), Block) == []
    ensures Converted(BetweenCode(u, k, v), missing) == Bracket(NameOf(Inline, 0) + missing + NameOf(Inline, 1))
  {
    var text, a, c := BetweenCode(u, k, v), NameOf(Inline, 0), NameOf(Inline, 1);
    BetweenCodeWithoutCode(u, k, v);
    BetweenCodeLayout(u, k, v);
    NameOfIsName(Inline, 0);
    NameOfIsName(Inline, 1);
    NameOfIsName(Block, k);
    NumberOfOtherName(Url, Inline, 0);
    NumberOfOtherName(Url, Inline, 1);
    NumberOfOtherName(Url, Block, k);
    NumberOfOtherName(Block, Inline, 0);
    RestorePasses(Url, a, NameOf(Block, k), c, Stored(text, Url, missing));
    TakenForTag(Block, a, k, c, Stored(text, Block, missing));
    assert WithBlocks(text, missing) == Bracket(a + missing + c);
    RunTogether(Inline, Block, missing);
    RestoreOther(Inline, a + missing + c, Stored(text, Inline, missing));
  }
}
