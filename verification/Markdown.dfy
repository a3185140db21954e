/** `markdownToHtml`: extract, escape and format, restore. */
module Markdown {
  import opened Common
  import opened Marks
  import opened Rules
  import opened Rewriting
  import opened Restoring
  import opened Escaping

  // ---------- the passes between extraction and restoring ----------

  const H3 := Prefixed("### ", "<h3>", "</h3>")
  const H2 := Prefixed("## ", "<h2>", "</h2>")
  const H1 := Prefixed("# ", "<h1>", "</h1>")
  const STAR_BOTH := Paired("***", "<b><i>", "</i></b>")
  const STAR_BOLD := Paired("**", "<b>", "</b>")
  const STAR_ITALIC := Paired("*", "<i>", "</i>")
  const LINE_BOTH := Paired("___", "<b><i>", "</i></b>")
  const LINE_BOLD := Paired("__", "<b>", "</b>")
  const LINE_ITALIC := Paired("_", "<i>", "</i>")
  const STAR_ITEM := Prefixed("* ", LI, LI_END)
  const DASH_ITEM := Prefixed("- ", LI, LI_END)
  const NUMBER_ITEM := Rule.Numbered(LI, LI_END)

  const FORMATTING: seq<Rule> := [
    Entity(Char(0), EntityOf(0)), Entity(Char(1), EntityOf(1)), Entity(Char(2), EntityOf(2)),
    H3, H2, H1, STAR_BOTH, STAR_BOLD, STAR_ITALIC, LINE_BOTH, LINE_BOLD, LINE_ITALIC,
    Link, STAR_ITEM, DASH_ITEM, NUMBER_ITEM, Items
  ]

  function ReplaceAll(r: Rule, s: string): string {
    Rewrite(r, s, 0, 0)
  }

  /** The rules one after the other, each over the whole text. */
  function Formatted(s: string, rules: seq<Rule>): string
    decreases |rules|
  {
    if rules == [] then s else Formatted(ReplaceAll(rules[0], s), rules[1..])
  }

  predicate Formats(r: Rule) {
    Proper(r) && !r.Extract?
  }

  lemma EntitiesFormat(level: nat)
    requires level < 3
    ensures Formats(Entity(Char(level), EntityOf(level)))
  {
  }

  lemma HeadersFormat()
    ensures Formats(H3) && Formats(H2) && Formats(H1)
  {
  }

  lemma StarsFormat()
    ensures Formats(STAR_BOTH) && Formats(STAR_BOLD) && Formats(STAR_ITALIC)
  {
  }

  lemma LinesFormat()
    ensures Formats(LINE_BOTH) && Formats(LINE_BOLD) && Formats(LINE_ITALIC)
  {
  }

  lemma ItemsFormat()
    ensures Formats(STAR_ITEM) && Formats(DASH_ITEM) && Formats(NUMBER_ITEM)
  {
  }

  lemma EveryRuleFormats()
    ensures forall r :: r in FORMATTING ==> Formats(r)
  {
    EntitiesFormat(0);
    EntitiesFormat(1);
    EntitiesFormat(2);
    HeadersFormat();
    StarsFormat();
    LinesFormat();
    ItemsFormat();
  }

  lemma {:induction false} NothingTraded(r: Rule, s: string, i: nat, k: nat)
    requires !r.Extract? && i <= |s|
    ensures AllLost(r, s, i, k) == [] && AllGained(r, s, i, k) == []
    decreases |s| - i
  {
    match Next(r, s, i, k)
    case None =>
    case Some(h) => NothingTraded(r, s, h.end, k + 1);
  }

  lemma NothingAdded(a: multiset<string>, b: multiset<string>)
    requires a + multiset([]) == b + multiset([])
    ensures a == b
  {
    assert a + multiset([]) == a && b + multiset([]) == b;
  }

  /** One pass keeps every placeholder, whole, exactly as often as it was there. */
  lemma PassConserves(r: Rule, s: string)
    requires Sound(s) && Formats(r)
    ensures Sound(ReplaceAll(r, s)) && multiset(Names(ReplaceAll(r, s))) == multiset(Names(s))
  {
    RewriteConserves(r, s, 0, 0);
    NothingTraded(r, s, 0, 0);
    assert s[0..] == s;
    NothingAdded(multiset(Names(ReplaceAll(r, s))), multiset(Names(s)));
  }

  lemma {:induction false} PassesConserve(s: string, rules: seq<Rule>)
    requires Sound(s) && forall r :: r in rules ==> Formats(r)
    ensures Sound(Formatted(s, rules)) && multiset(Names(Formatted(s, rules))) == multiset(Names(s))
    decreases |rules|
  {
    if rules != [] {
      PassConserves(rules[0], s);
      PassesConserve(ReplaceAll(rules[0], s), rules[1..]);
    }
  }

  /** The escape, header, emphasis, link and list passes together. */
  lemma FormattingConserves(s: string)
    requires Sound(s)
    ensures Sound(Formatted(s, FORMATTING)) && multiset(Names(Formatted(s, FORMATTING))) == multiset(Names(s))
  {
    EveryRuleFormats();
    PassesConserve(s, FORMATTING);
  }

  // ---------- what is stored ----------

  const PRE := "<pre><code>"
  const PRE_END := "</code></pre>"
  const CODE := "<code>"
  const CODE_END := "</code>"

  function FirstNot(s: string): (a: nat)
    ensures a <= |s| && Cut(s, a)
  {
    Run(s, 0, c => c == '\n')
  }

  /** The end of the text without the newlines that end it. */
  function LastNot(s: string, a: nat, b: nat): (r: nat)
    requires a <= b <= |s| && Cut(s, b)
    ensures a <= r <= b && Cut(s, r)
    decreases b
  {
    if b > a && s[b - 1] == '\n' then LastNot(s, a, b - 1) else b
  }

  /** `code.replace(/^\n+|\n+$/g, '')` */
  function Trimmed(code: string): string {
    code[FirstNot(code)..LastNot(code, FirstNot(code), |code|)]
  }

  /** A match without the `n` marks around it. */
  function Inner(span: string, n: nat): string {
    if |span| >= 2 * n then span[n..|span| - n] else ""
  }

  /** What stands for a match in the end. */
  function Html(kind: Kind, span: string): string {
    match kind
    case Block => PRE + Escaped(Trimmed(Inner(span, 3))) + PRE_END
    case Inline => CODE + Escaped(Inner(span, 1)) + CODE_END
    case Url => LinkText(span, Escaped(span))
  }

  lemma StoredMarkup()
    ensures IsMarkup(PRE) && IsMarkup(PRE_END) && IsMarkup(CODE) && IsMarkup(CODE_END)
  {
  }

  lemma EscapedConserves(s: string)
    requires Sound(s)
    ensures Sound(Escaped(s)) && multiset(Names(Escaped(s))) == multiset(Names(s))
  {
    var a := EscapeOnce(s, 0);
    var b := EscapeOnce(a, 1);
    EntitiesFormat(0);
    EntitiesFormat(1);
    EntitiesFormat(2);
    PassConserves(Entity(Char(0), EntityOf(0)), s);
    PassConserves(Entity(Char(1), EntityOf(1)), a);
    PassConserves(Entity(Char(2), EntityOf(2)), b);
  }

  lemma WrappedIsFramed(open: string, body: string, close: string)
    requires IsMarkup(open) && IsMarkup(close) && Sound(body)
    ensures Framed(open + body + close) && Names(open + body + close) == Names(body)
  {
    WrapIsSound(open, body, close);
    assert (open + body + close)[0] == open[0] && Last(open + body + close) == Last(close);
  }

  /** A block is text alone. */
  lemma BlockHtmlIsFramed(span: string)
    requires Sound(span) && NUL !in span && |span| >= 6 && span[2] == '`' && span[|span| - 3] == '`'
    ensures Framed(Html(Block, span)) && Names(Html(Block, span)) == []
  {
    var code := Inner(span, 3);
    var a := FirstNot(code);
    var z := LastNot(code, a, |code|);
    SliceIsSound(span, 3, |span| - 3);
    SliceIsSound(code, a, z);
    NulFreeReads(code[a..z]);
    EscapedConserves(code[a..z]);
    StoredMarkup();
    WrappedIsFramed(PRE, Escaped(Trimmed(code)), PRE_END);
  }

  /** Inline code keeps what placeholders it holds. */
  lemma InlineHtmlIsFramed(span: string)
    requires Sound(span) && |span| >= 2 && span[0] == '`' && Last(span) == '`'
    ensures Framed(Html(Inline, span)) && multiset(Names(Html(Inline, span))) == multiset(Names(span))
  {
    assert [span[0]] == span[0..1] && [Last(span)] == span[|span| - 1..|span|] && span[0..|span|] == span;
    Middle(span, 0, 1, |span| - 1, |span|);
    EscapedConserves(Inner(span, 1));
    StoredMarkup();
    WrappedIsFramed(CODE, Escaped(Inner(span, 1)), CODE_END);
  }

  /** An anchor shows its address twice. */
  lemma UrlHtmlIsFramed(span: string)
    requires Sound(span)
    ensures Framed(Html(Url, span))
    ensures multiset(Names(Html(Url, span))) == multiset(Names(span)) + multiset(Names(span))
  {
    EscapedConserves(span);
    LinkIsSound(span, Escaped(span));
    LinkEnds(span, Escaped(span));
  }
}
