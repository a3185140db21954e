/** A text that is one piece of code or one address, and what is shown of it. */
module Showing {
  import opened Common
  import opened JsText
  import opened Marks
  import opened Rules
  import opened Restoring
  import opened Extraction
  import opened Escaping
  import opened Markdown
  import opened Conversion
  import opened Mishaps
  import opened Scanning

  /** Text made safe inside HTML, character by character. */
  function Safe(s: string): string {
    if s == "" then ""
    else
      var rest := Safe(s[1..]);
      if s[0] == '&' then "&amp;" + rest
      else if s[0] == '<' then "&lt;" + rest
      else if s[0] == '>' then "&gt;" + rest
      else [s[0]] + rest
  }

  lemma {:induction false} MappedIsSafe(s: string)
    ensures Mapped(s, 3) == Safe(s)
  {
    if s != "" {
      MappedIsSafe(s[1..]);
    }
  }

  /** The three replacements, in so many words. */
  lemma EscapedIsSafe(s: string)
    ensures Escaped(s) == Safe(s)
  {
    EscapedIsMapped(s);
    MappedIsSafe(s);
  }

  lemma {:induction false} SafeHasNoNul(s: string)
    requires NUL !in s
    ensures NUL !in Safe(s)
  {
    if s != "" {
      assert s[0] in s && forall c :: c in s[1..] ==> c in s;
      SafeHasNoNul(s[1..]);
    }
  }

  // ---------- one piece through all passes ----------

  lemma TagIsBare(kind: Kind)
    ensures Bare(Tag(kind, 0)) && Formatted(Tag(kind, 0), FORMATTING) == Tag(kind, 0)
  {
    NameOfIsName(kind, 0);
    EveryRuleFormats();
    BareStaysFormatted(Tag(kind, 0), FORMATTING);
  }

  /** The scan for its own kind puts the stored piece in place of the only placeholder. */
  lemma OwnScan(kind: Kind, stored: nat -> string)
    ensures Restore(kind, Tag(kind, 0), stored) == stored(0)
  {
    TagIsSound(kind, 0);
    NumberOfName(kind, 0);
    OwnKindIsNeverMistaken(kind, Tag(kind, 0));
    RestoreIsSubstitute(kind, Tag(kind, 0), stored);
    TagIsReplaced(kind, 0, stored);
  }

  lemma OtherScan(kind: Kind, other: Kind, stored: nat -> string)
    requires kind != other
    ensures Restore(other, Tag(kind, 0), stored) == Tag(kind, 0)
  {
    NameOfIsName(kind, 0);
    NumberOfOtherName(other, kind, 0);
    RestoreOther(other, NameOf(kind, 0), stored);
  }

  /** A text that is extracted as a whole is shown as its stored form. */
  lemma OnePieceIsShown(text: string, kind: Kind, missing: string)
    requires Skeleton(text) == Tag(kind, 0) && SpansOf(text, kind) == [text] && NUL !in Html(kind, text)
    ensures Converted(text, missing) == Html(kind, text)
  {
    var html := Html(kind, text);
    TagIsBare(kind);
    OwnScan(kind, Stored(text, kind, missing));
    assert Stored(text, kind, missing)(0) == html;
    match kind
    case Url =>
      NulFreeRestores(Block, html, Stored(text, Block, missing));
      NulFreeRestores(Inline, html, Stored(text, Inline, missing));
    case Block =>
      OtherScan(Block, Url, Stored(text, Url, missing));
      NulFreeRestores(Inline, html, Stored(text, Inline, missing));
    case Inline =>
      OtherScan(Inline, Url, Stored(text, Url, missing));
      OtherScan(Inline, Block, Stored(text, Block, missing));
  }

  lemma WholeMatch(kind: Kind, s: string)
    requires s != "" && MatchAt(Extract(kind), s, 0, 0) == Some(Hit(0, |s|, Tag(kind, 0)))
    ensures Pulled(kind, s) == Tag(kind, 0) && Spans(kind, s) == [s]
  {
    OneMatch(kind, s, 0, |s|);
    assert s[..0] == "" && s[|s|..] == "" && s[0..|s|] == s;
  }

  lemma BareIsNotPulled(kind: Kind, s: string)
    requires Bare(s)
    ensures Pulled(kind, s) == s
  {
    BareStays(Extract(kind), s);
    NoMatch(kind, s);
  }

  // ---------- a code block ----------

  /** Newlines around the code are not part of it. */
  lemma TrimmedIs(before: string, core: string, behind: string)
    requires forall i :: 0 <= i < |before| ==> before[i] == '\n'
    requires forall i :: 0 <= i < |behind| ==> behind[i] == '\n'
    requires core != "" && core[0] != '\n' && Last(core) != '\n'
    ensures Trimmed(before + core + behind) == core
  {
    var code, a, b := before + core + behind, |before|, |before| + |core|;
    assert code[a] == core[0] && code[b - 1] == Last(core);
    assert forall i :: 0 <= i < a ==> code[i] == '\n';
    assert FirstNot(code) == a;
    assert forall i :: b <= i < |code| ==> code[i] == behind[i - b];
    LastNotIs(code, a, b, |code|);
    assert code[a..b] == core;
  }

  lemma {:induction false} LastNotIs(code: string, a: nat, b: nat, end: nat)
    requires a < b <= end <= |code| && code[b - 1] != '\n' && forall i :: b <= i < end ==> code[i] == '\n'
    requires Cut(code, end)
    ensures LastNot(code, a, end) == b
    decreases end
  {
    if b < end {
      LastNotIs(code, a, b, end - 1);
    }
  }

  lemma BlockIsPulled(code: string)
    requires '`' !in code
    ensures Skeleton("```" + code + "```") == Tag(Block, 0)
    ensures SpansOf("```" + code + "```", Block) == ["```" + code + "```"]
  {
    var s := "```" + code + "```";
    BlockThere("", code, "");
    assert "" + "```" + code + "```" + "" == s;
    WholeMatch(Block, s);
    TagIsBare(Block);
    BareIsNotPulled(Inline, Tag(Block, 0));
    BareIsNotPulled(Url, Tag(Block, 0));
  }

  lemma BlockHtml(before: string, core: string, behind: string)
    requires forall i :: 0 <= i < |before| ==> before[i] == '\n'
    requires forall i :: 0 <= i < |behind| ==> behind[i] == '\n'
    requires core != "" && core[0] != '\n' && Last(core) != '\n' && NUL !in core
    ensures Html(Block, "```" + (before + core + behind) + "```") == "<pre><code>" + Safe(core) + "</code></pre>"
    ensures NUL !in "<pre><code>" + Safe(core) + "</code></pre>"
  {
    var code := before + core + behind;
    assert Inner("```" + code + "```", 3) == code;
    TrimmedIs(before, core, behind);
    EscapedIsSafe(core);
    SafeHasNoNul(core);
  }

  lemma NoQuotes(before: string, core: string, behind: string)
    requires '`' !in before && '`' !in core && '`' !in behind
    ensures '`' !in before + core + behind
  {
  }

  lemma StoredBlockIsShown(code: string, html: string, missing: string)
    requires '`' !in code && Html(Block, "```" + code + "```") == html && NUL !in html
    ensures Converted("```" + code + "```", missing) == html
  {
    BlockIsPulled(code);
    OnePieceIsShown("```" + code + "```", Block, missing);
  }

  /** Code between three back quotes, without the newlines at its ends. */
  lemma BlockIsShown(before: string, core: string, behind: string, missing: string)
    requires forall i :: 0 <= i < |before| ==> before[i] == '\n'
    requires forall i :: 0 <= i < |behind| ==> behind[i] == '\n'
    requires core != "" && core[0] != '\n' && Last(core) != '\n' && '`' !in core && NUL !in core
    ensures Converted("```" + (before + core + behind) + "```", missing) == "<pre><code>" + Safe(core) + "</code></pre>"
  {
    var code := before + core + behind;
    BlockHtml(before, core, behind);
    NoQuotes(before, core, behind);
    StoredBlockIsShown(code, "<pre><code>" + Safe(core) + "</code></pre>", missing);
  }

  // ---------- inline code ----------

  lemma InlineIsPulled(code: string)
    requires code != "" && '`' !in code
    ensures Skeleton("`" + code + "`") == Tag(Inline, 0) && SpansOf("`" + code + "`", Inline) == ["`" + code + "`"]
  {
    var s := "`" + code + "`";
    assert forall x :: 1 <= x < |s| - 1 ==> s[x] == code[x - 1] && code[x - 1] in code;
    NoBlocks(s);
    InlineIsUnbroken(s, 0, |s|);
    assert InlineAt(s, 0, 0) == Some(Hit(0, |s|, Tag(Inline, 0)));
    WholeMatch(Inline, s);
    TagIsBare(Inline);
    BareIsNotPulled(Url, Tag(Inline, 0));
  }

  lemma InlineHtml(code: string)
    requires NUL !in code
    ensures Html(Inline, "`" + code + "`") == "<code>" + Safe(code) + "</code>"
    ensures NUL !in "<code>" + Safe(code) + "</code>"
  {
    assert Inner("`" + code + "`", 1) == code;
    EscapedIsSafe(code);
    SafeHasNoNul(code);
  }

  /** Code between single back quotes. */
  lemma InlineIsShown(code: string, missing: string)
    requires code != "" && '`' !in code && NUL !in code
    ensures Converted("`" + code + "`", missing) == "<code>" + Safe(code) + "</code>"
  {
    InlineHtml(code);
    InlineIsPulled(code);
    OnePieceIsShown("`" + code + "`", Inline, missing);
  }

  // ---------- an address ----------

  lemma SchemeIsFound(scheme: string, tail: string)
    requires IsScheme(scheme)
    ensures SchemeLength(scheme + tail, 0) == |scheme|
  {
    var s := scheme + tail;
    assert s[0..|scheme|] == scheme;
    assert scheme == "https://" ==> s[0..7][4] == 's';
    assert scheme == "file://" ==> s[0] == 'f';
  }

  lemma UrlIsPulled(scheme: string, tail: string)
    requires IsScheme(scheme) && tail != "" && forall i :: 0 <= i < |tail| ==> !IsSpace(tail[i]) && tail[i] != '`'
    ensures Skeleton(scheme + tail) == Tag(Url, 0) && SpansOf(scheme + tail, Url) == [scheme + tail]
  {
    var s := scheme + tail;
    assert forall x :: |scheme| <= x < |s| ==> s[x] == tail[x - |scheme|];
    assert forall x :: 0 <= x < |s| ==> s[x] != '`';
    SkipsTo(Block, s, 0, |s|, 0);
    SkipsTo(Inline, s, 0, |s|, 0);
    NoMatch(Block, s);
    NoMatch(Inline, s);
    SchemeIsFound(scheme, tail);
    UrlIsUnbroken(s, 0, |s|);
    assert UrlAt(s, 0, 0) == Some(Hit(0, |s|, Tag(Url, 0)));
    WholeMatch(Url, s);
  }

  lemma UrlHtml(url: string)
    requires NUL !in url
    ensures Html(Url, url) == "<a href=\"" + url + "\">" + Safe(url) + "</a>" && NUL !in Html(Url, url)
  {
    EscapedIsSafe(url);
    SafeHasNoNul(url);
  }

  /** An address becomes a link to itself. */
  lemma UrlIsShown(scheme: string, tail: string, missing: string)
    requires IsScheme(scheme) && tail != "" && NUL !in tail
    requires forall i :: 0 <= i < |tail| ==> !IsSpace(tail[i]) && tail[i] != '`'
    ensures Converted(scheme + tail, missing) ==
            "<a href=\"" + (scheme + tail) + "\">" + Safe(scheme + tail) + "</a>"
  {
    UrlHtml(scheme + tail);
    UrlIsPulled(scheme, tail);
    OnePieceIsShown(scheme + tail, Url, missing);
  }
}
