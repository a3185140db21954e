/**
 The regular expressions of the converter, as scanners.

 `MatchAt` says where an expression that starts looking at `i` matches and what replaces the match.
 Lazy and greedy quantifiers are resolved: each scanner stops at the one place where the expression can.
 */
module Rules {
  import opened Common
  import opened JsText
  import opened Marks
  import opened Decimal

  datatype Rule =
    | Extract(kind: Kind)
    | Entity(c: char, entity: string)                       // one character
    | Prefixed(mark: string, open: string, close: string)   // ^mark(.*?)$
    | Numbered(open: string, close: string)                 // ^\d+\. (.*?)$
    | Paired(mark: string, open: string, close: string)     // mark(.*?)mark
    | Link                                                  // \[([^\]]+)\]\(([^)]+)\)
    | Items                                                 // (<li>[\s\S]*?<\/li>\s*)+

  /** `s[at..end]` is replaced by `out`. */
  datatype Hit = Hit(at: nat, end: nat, out: string)

  const HREF := "<a href=\""
  const HREF_END := "\">"
  const A_END := "</a>"
  const UL := "<ul>"
  const UL_END := "</ul>"
  const LI := "<li>"
  const LI_END := "</li>"

  // ---------- tags ----------

  function NameOf(kind: Kind, k: nat): string {
    Word(kind) + Show(k)
  }

  function Tag(kind: Kind, k: nat): string {
    Bracket(NameOf(kind, k))
  }

  // ---------- scanning ----------

  predicate Occurs(s: string, word: string, i: nat) {
    i + |word| <= |s| && s[i..i + |word|] == word
  }

  /** The first place at or after `i` where `word` occurs. */
  function Find(s: string, word: string, i: nat): (r: Option<nat>)
    ensures r.Some? ==> i <= r.value && Occurs(s, word, r.value)
    ensures forall j :: i <= j < (if r.Some? then r.value else |s|) ==> !Occurs(s, word, j)
    decreases |s| - i
  {
    if Occurs(s, word, i) then Some(i) else if i >= |s| then None else Find(s, word, i + 1)
  }

  /** The end of the run of characters satisfying `p` that starts at `i`. */
  function Run(s: string, i: nat, p: char -> bool): (r: nat)
    requires i <= |s|
    ensures i <= r <= |s|
    ensures forall j :: i <= j < r ==> p(s[j])
    ensures r < |s| ==> !p(s[r])
    decreases |s| - i
  {
    if i < |s| && p(s[i]) then Run(s, i + 1, p) else i
  }

  /** `^` in multi-line mode. */
  predicate LineStart(s: string, i: nat) {
    i <= |s| && (i == 0 || IsLineEnd(s[i - 1]))
  }

  /** `$` after `i`, and how far `.*` can reach. */
  function LineEnd(s: string, i: nat): (r: nat)
    requires i <= |s|
    ensures i <= r <= |s| && (r < |s| ==> IsLineEnd(s[r]))
    ensures forall j :: i <= j < r ==> !IsLineEnd(s[j])
  {
    Run(s, i, c => !IsLineEnd(c))
  }

  // ---------- matching ----------

  /** ```` ```([\s\S]*?)``` ```` */
  function BlockEnd(s: string, i: nat): (r: Option<nat>)
    ensures r.Some? ==> i + 6 <= r.value <= |s|
  {
    if !Occurs(s, "```", i) then None
    else match Find(s, "```", i + 3)
      case None => None
      case Some(j) => Some(j + 3)
  }

  /** `` `([^`]+)` `` */
  function InlineEnd(s: string, i: nat): Option<nat>
    requires i < |s|
  {
    if s[i] != '`' then None
    else
      var p := Run(s, i + 1, c => c != '`');
      if i + 1 < p < |s| then Some(p + 1) else None
  }

  function SchemeLength(s: string, i: nat): nat {
    if Occurs(s, "http://", i) then 7
    else if Occurs(s, "https://", i) then 8
    else if Occurs(s, "file://", i) then 7
    else 0
  }

  /** `(?:https?|file):\/\/[^\s]+` */
  function UrlEnd(s: string, i: nat): (r: Option<nat>)
    ensures r.Some? ==> i < r.value <= |s| && !IsNameChar(s[i]) && s[i] != NUL
    ensures r.Some? && r.value < |s| ==> IsSpace(s[r.value])
  {
    var n := SchemeLength(s, i);
    if n == 0 then None
    else
      var e := Run(s, i + n, c => !IsSpace(c));
      assert s[i] == s[i..i + n][0];
      if e > i + n then Some(e) else None
  }

  /** One `<li>[\s\S]*?<\/li>\s*`. */
  function ItemEnd(s: string, i: nat): (r: Option<nat>)
    ensures r.Some? ==> i < r.value <= |s| && s[i] == '<' && IsBreak(s[r.value - 1])
  {
    if !Occurs(s, LI, i) then None
    else match Find(s, LI_END, i + 4)
      case None => None
      case Some(j) =>
        assert s[i] == s[i..i + 4][0] && s[j + 4] == s[j..j + 5][4];
        Some(Run(s, j + 5, c => IsSpace(c)))
  }

  function ItemsEnd(s: string, i: nat): (r: nat)
    requires i <= |s|
    ensures i <= r <= |s| && (r > i ==> s[i] == '<' && IsBreak(s[r - 1]))
    decreases |s| - i
  {
    match ItemEnd(s, i)
    case None => i
    case Some(e) => ItemsEnd(s, e)
  }

  predicate InRange(s: string, i: nat, h: Option<Hit>) {
    h.Some? ==> i <= h.value.at < h.value.end <= |s|
  }

  function BlockAt(s: string, i: nat, k: nat): (h: Option<Hit>)
    ensures InRange(s, i, h)
  {
    match BlockEnd(s, i)
    case None => None
    case Some(e) => Some(Hit(i, e, Tag(Block, k)))
  }

  function InlineAt(s: string, i: nat, k: nat): (h: Option<Hit>)
    requires i < |s|
    ensures InRange(s, i, h)
  {
    match InlineEnd(s, i)
    case None => None
    case Some(e) => Some(Hit(i, e, Tag(Inline, k)))
  }

  /** `(^|[\s])` before the address: at a line start, or after a white space that stays. */
  function UrlAt(s: string, i: nat, k: nat): (h: Option<Hit>)
    requires i < |s|
    ensures InRange(s, i, h)
  {
    match (if LineStart(s, i) then UrlEnd(s, i) else None)
    case Some(e) => Some(Hit(i, e, Tag(Url, k)))
    case None =>
      match (if IsSpace(s[i]) then UrlEnd(s, i + 1) else None)
      case Some(e) => Some(Hit(i + 1, e, Tag(Url, k)))
      case None => None
  }

  function EntityAt(s: string, i: nat, c: char, entity: string): (h: Option<Hit>)
    requires i < |s|
    ensures InRange(s, i, h)
  {
    if s[i] == c then Some(Hit(i, i + 1, entity)) else None
  }

  function PrefixedAt(s: string, i: nat, mark: string, open: string, close: string): (h: Option<Hit>)
    ensures InRange(s, i, h)
  {
    if mark == "" || !LineStart(s, i) || !Occurs(s, mark, i) then None
    else
      var e := LineEnd(s, i + |mark|);
      Some(Hit(i, e, open + s[i + |mark|..e] + close))
  }

  function NumberedAt(s: string, i: nat, open: string, close: string): (h: Option<Hit>)
    requires i < |s|
    ensures InRange(s, i, h)
  {
    var d := Run(s, i, c => IsDigit(c));
    if !LineStart(s, i) || d == i || !Occurs(s, ". ", d) then None
    else
      var e := LineEnd(s, d + 2);
      Some(Hit(i, e, open + s[d + 2..e] + close))
  }

  function PairedAt(s: string, i: nat, mark: string, open: string, close: string): (h: Option<Hit>)
    ensures InRange(s, i, h)
  {
    if mark == "" || !Occurs(s, mark, i) then None
    else match Find(s, mark, i + |mark|)
      case None => None
      case Some(j) =>
        if j > LineEnd(s, i + |mark|) then None
        else Some(Hit(i, j + |mark|, open + s[i + |mark|..j] + close))
  }

  function LinkText(address: string, caption: string): string {
    HREF + address + HREF_END + caption + A_END
  }

  function LinkAt(s: string, i: nat): (h: Option<Hit>)
    requires i < |s|
    ensures InRange(s, i, h)
  {
    if s[i] != '[' then None
    else
      var p := Run(s, i + 1, c => c != ']');
      if p == i + 1 || p + 1 >= |s| || s[p + 1] != '(' then None
      else
        var q := Run(s, p + 2, c => c != ')');
        if q == p + 2 || q == |s| then None
        else Some(Hit(i, q + 1, LinkText(s[p + 2..q], s[i + 1..p])))
  }

  function ItemsAt(s: string, i: nat): (h: Option<Hit>)
    requires i <= |s|
    ensures InRange(s, i, h)
  {
    var e := ItemsEnd(s, i);
    if e == i then None else Some(Hit(i, e, UL + s[i..e] + UL_END))
  }

  /** The match of an expression that is tried at `i`; `k` matches were replaced before. */
  function MatchAt(r: Rule, s: string, i: nat, k: nat): (h: Option<Hit>)
    requires i < |s|
    ensures InRange(s, i, h)
  {
    match r
    case Extract(Block) => BlockAt(s, i, k)
    case Extract(Inline) => InlineAt(s, i, k)
    case Extract(Url) => UrlAt(s, i, k)
    case Entity(c, entity) => EntityAt(s, i, c, entity)
    case Prefixed(mark, open, close) => PrefixedAt(s, i, mark, open, close)
    case Numbered(open, close) => NumberedAt(s, i, open, close)
    case Paired(mark, open, close) => PairedAt(s, i, mark, open, close)
    case Link => LinkAt(s, i)
    case Items => ItemsAt(s, i)
  }

  // ---------- what the scanners find ----------

  /** A code block reaches to the nearest closing marks. */
  lemma BlockIsNearest(s: string, i: nat, e: nat)
    ensures BlockEnd(s, i) == Some(e) <==>
            && i + 6 <= e && Occurs(s, "```", i) && Occurs(s, "```", e - 3)
            && forall j :: i + 3 <= j < e - 3 ==> !Occurs(s, "```", j)
  {
  }

  /** Inline code is what lies between two back quotes with none in between, and is not empty. */
  lemma InlineIsUnbroken(s: string, i: nat, e: nat)
    requires i < |s|
    ensures InlineEnd(s, i) == Some(e) <==>
            && i + 3 <= e <= |s| && s[i] == '`' && s[e - 1] == '`'
            && forall j :: i < j < e - 1 ==> s[j] != '`'
  {
  }

  /** An address goes on to the next white space. */
  lemma UrlIsUnbroken(s: string, i: nat, e: nat)
    ensures
      var n := SchemeLength(s, i);
      UrlEnd(s, i) == Some(e) <==>
        && n > 0 && i + n < e <= |s|
        && (forall j :: i + n <= j < e ==> !IsSpace(s[j]))
        && (e < |s| ==> IsSpace(s[e]))
  {
  }

  /** Emphasis ends at the nearest closing mark, on the same line. */
  lemma PairedIsNearest(mark: string, open: string, close: string, s: string, i: nat, e: nat)
    requires mark != ""
    ensures
      var h := PairedAt(s, i, mark, open, close);
      var n := |mark|;
      h.Some? && h.value.end == e <==>
        && Occurs(s, mark, i) && i + 2 * n <= e && Occurs(s, mark, e - n)
        && forall j :: i + n <= j < e - n ==> !Occurs(s, mark, j) && !IsLineEnd(s[j])
  {
    if Occurs(s, mark, i) && Find(s, mark, i + |mark|).Some? {
      var j, l := Find(s, mark, i + |mark|).value, LineEnd(s, i + |mark|);
      assert l < j ==> IsLineEnd(s[l]);
    }
  }

  // ---------- what a match does to placeholders ----------

  predicate Breaks(mark: string) {
    mark != "" && forall i :: 0 <= i < |mark| ==> IsBreak(mark[i])
  }

  /** The literals of a rule are markup, and what it looks for is no part of a name. */
  predicate Proper(r: Rule) {
    match r
    case Entity(c, entity) => IsBreak(c) && IsMarkup(entity)
    case Prefixed(mark, open, close) => Breaks(mark) && IsMarkup(open) && IsMarkup(close)
    case Numbered(open, close) => IsMarkup(open) && IsMarkup(close)
    case Paired(mark, open, close) => Breaks(mark) && IsMarkup(open) && IsMarkup(close)
    case _ => true
  }

  /** The match lies between placeholders, and so does what replaces it. */
  predicate Placeable(s: string, i: nat, h: Hit) {
    && i <= h.at < h.end <= |s| && Cut(s, h.at) && Cut(s, h.end)
    && h.out != "" && !IsNameChar(h.out[0]) && !IsNameChar(Last(h.out))
  }

  /** The placeholders that a match takes out of the text, and those it puts in. */
  function Lost(r: Rule, s: string, h: Hit): seq<string>
    requires h.at <= h.end <= |s|
  {
    if r.Extract? then Names(s[h.at..h.end]) else []
  }

  function Gained(r: Rule, k: nat): seq<string> {
    if r.Extract? then [NameOf(r.kind, k)] else []
  }

  predicate Conserves(r: Rule, s: string, k: nat, h: Hit)
    requires h.at <= h.end <= |s|
  {
    && Sound(h.out)
    && multiset(Names(h.out)) + multiset(Lost(r, s, h)) == multiset(Names(s[h.at..h.end])) + multiset(Gained(r, k))
  }

  predicate Fair(r: Rule, s: string, i: nat, k: nat, h: Hit) {
    Placeable(s, i, h) && Conserves(r, s, k, h)
  }

  lemma OccursAt(s: string, word: string, i: nat, j: nat)
    requires Occurs(s, word, i) && j < |word|
    ensures s[i + j] == word[j]
  {
    assert s[i..i + |word|][j] == s[i + j];
  }

  lemma {:induction false} OpenTagReads(n: string)
    requires NUL !in n
    ensures Read([NUL] + n) == Reading([], Some(n))
  {
    if n == "" {
      assert [NUL] + n == [NUL] && Front([NUL]) == "";
    } else {
      assert Last(n) in n && forall c :: c in Front(n) ==> c in n;
      OpenTagReads(Front(n));
      assert n == Front(n) + [Last(n)] && [NUL] + n == ([NUL] + Front(n)) + [Last(n)];
      ReadSnoc([NUL] + Front(n), Last(n));
    }
  }

  lemma NameOfIsName(kind: Kind, k: nat)
    ensures NameOf(kind, k) != "" && NUL !in NameOf(kind, k) && AllNameChars(NameOf(kind, k))
  {
    var w, d, n := Word(kind), Show(k), NameOf(kind, k);
    forall i | 0 <= i < |n|
      ensures IsNameChar(n[i])
    {
      if i >= |w| {
        assert n[i] == d[i - |w|] && d[i - |w|] in d;
      }
    }
  }

  /** A tag is a sound text that holds its own name. */
  lemma TagIsSound(kind: Kind, k: nat)
    ensures Sound(Tag(kind, k)) && Names(Tag(kind, k)) == [NameOf(kind, k)]
  {
    NameOfIsName(kind, k);
    OpenTagReads(NameOf(kind, k));
    ReadSnoc([NUL] + NameOf(kind, k), NUL);
  }

  lemma TagIsClean(kind: Kind, k: nat)
    ensures Clean(Tag(kind, k))
  {
    var n, t := NameOf(kind, k), Tag(kind, k);
    NameOfIsName(kind, k);
    forall p | 0 <= p <= |t| && Even(t[..p])
      ensures !Marked(t[p..])
    {
      if 0 < p < |t| {
        assert t[..p] == [NUL] + n[..p - 1];
        assert forall c :: c in n[..p - 1] ==> c in n;
        OpenTagReads(n[..p - 1]);
      }
      OnlyCapitalsAreMarked(t[p..]);
    }
  }

  lemma NamesSplit(s: string, a: nat, b: nat, c: nat)
    requires Sound(s) && a <= b <= c <= |s| && Cut(s, a) && Cut(s, b) && Cut(s, c)
    ensures Sound(s[a..b]) && Sound(s[b..c]) && Names(s[a..c]) == Names(s[a..b]) + Names(s[b..c])
  {
    SliceIsSound(s, a, b);
    SliceIsSound(s, b, c);
    assert s[a..c] == s[a..b] + s[b..c];
    ReadAppend(s[a..b], s[b..c]);
  }

  /** Nothing but the middle of this stretch of text holds placeholders. */
  lemma Middle(s: string, at: nat, lo: nat, hi: nat, end: nat)
    requires Sound(s) && at <= lo <= hi <= end <= |s| && Cut(s, at) && Cut(s, lo) && Cut(s, hi) && Cut(s, end)
    requires NUL !in s[at..lo] && NUL !in s[hi..end]
    ensures Sound(s[lo..hi]) && Names(s[at..end]) == Names(s[lo..hi])
  {
    NamesSplit(s, at, lo, end);
    NamesSplit(s, lo, hi, end);
    NulFreeReads(s[at..lo]);
    NulFreeReads(s[hi..end]);
  }

  lemma BreaksAreNulFree(s: string, mark: string, i: nat)
    requires Breaks(mark) && Occurs(s, mark, i)
    ensures NUL !in s[i..i + |mark|] && Cut(s, i) && Cut(s, i + |mark|)
  {
    OccursAt(s, mark, i, 0);
    OccursAt(s, mark, i, |mark| - 1);
  }

  lemma WrappedIsFair(r: Rule, s: string, i: nat, k: nat, lo: nat, hi: nat, end: nat, open: string, close: string)
    requires !r.Extract? && Sound(s) && i <= lo <= hi <= end <= |s| && i < end
    requires Cut(s, i) && Cut(s, lo) && Cut(s, hi) && Cut(s, end)
    requires NUL !in s[i..lo] && NUL !in s[hi..end] && IsMarkup(open) && IsMarkup(close)
    ensures Fair(r, s, i, k, Hit(i, end, open + s[lo..hi] + close))
  {
    Middle(s, i, lo, hi, end);
    WrapIsSound(open, s[lo..hi], close);
    assert (open + s[lo..hi] + close)[0] == open[0];
  }

  lemma TagIsFair(kind: Kind, s: string, i: nat, at: nat, end: nat, k: nat)
    requires Sound(s) && i <= at < end <= |s| && Cut(s, at) && Cut(s, end)
    ensures Fair(Extract(kind), s, i, k, Hit(at, end, Tag(kind, k)))
  {
    TagIsSound(kind, k);
  }

  lemma BlockCuts(s: string, i: nat)
    requires BlockEnd(s, i).Some?
    ensures i < BlockEnd(s, i).value <= |s| && Cut(s, i) && Cut(s, BlockEnd(s, i).value)
  {
    OccursAt(s, "```", i, 0);
    OccursAt(s, "```", BlockEnd(s, i).value - 3, 2);
  }

  lemma BlockIsFair(s: string, i: nat, k: nat)
    requires Sound(s) && i < |s| && BlockAt(s, i, k).Some?
    ensures Fair(Extract(Block), s, i, k, BlockAt(s, i, k).value)
  {
    BlockCuts(s, i);
    TagIsFair(Block, s, i, i, BlockEnd(s, i).value, k);
  }

  lemma InlineIsFair(s: string, i: nat, k: nat)
    requires Sound(s) && i < |s| && InlineAt(s, i, k).Some?
    ensures Fair(Extract(Inline), s, i, k, InlineAt(s, i, k).value)
  {
    TagIsFair(Inline, s, i, i, InlineEnd(s, i).value, k);
  }

  lemma UrlIsFair(s: string, i: nat, k: nat)
    requires Sound(s) && i < |s| && UrlAt(s, i, k).Some?
    ensures Fair(Extract(Url), s, i, k, UrlAt(s, i, k).value)
  {
    var h := UrlAt(s, i, k).value;
    TagIsFair(Url, s, i, h.at, h.end, k);
  }

  lemma EntityIsFair(c: char, entity: string, s: string, i: nat, k: nat)
    requires Sound(s) && i < |s| && IsBreak(c) && IsMarkup(entity) && EntityAt(s, i, c, entity).Some?
    ensures Fair(Entity(c, entity), s, i, k, EntityAt(s, i, c, entity).value)
  {
    NulFreeReads(s[i..i + 1]);
    MarkupIsSound(entity);
  }

  lemma PrefixedIsFair(mark: string, open: string, close: string, s: string, i: nat, k: nat)
    requires Sound(s) && Breaks(mark) && IsMarkup(open) && IsMarkup(close)
    requires PrefixedAt(s, i, mark, open, close).Some?
    ensures Fair(Prefixed(mark, open, close), s, i, k, PrefixedAt(s, i, mark, open, close).value)
  {
    var lo, e := i + |mark|, LineEnd(s, i + |mark|);
    BreaksAreNulFree(s, mark, i);
    WrappedIsFair(Prefixed(mark, open, close), s, i, k, lo, e, e, open, close);
  }

  lemma NumberedCuts(s: string, i: nat, d: nat, e: nat)
    requires LineStart(s, i) && i < d && d + 2 <= e && Occurs(s, ". ", d) && e == LineEnd(s, d + 2)
    requires forall j :: i <= j < d ==> IsDigit(s[j])
    ensures Cut(s, i) && Cut(s, d + 2) && Cut(s, e) && NUL !in s[i..d + 2]
  {
    OccursAt(s, ". ", d, 0);
    OccursAt(s, ". ", d, 1);
  }

  lemma NumberedShape(open: string, close: string, s: string, i: nat) returns (lo: nat, end: nat)
    requires i < |s| && NumberedAt(s, i, open, close).Some?
    ensures i < lo <= end <= |s| && Cut(s, i) && Cut(s, lo) && Cut(s, end) && NUL !in s[i..lo]
    ensures NumberedAt(s, i, open, close) == Some(Hit(i, end, open + s[lo..end] + close))
  {
    var d := Run(s, i, c => IsDigit(c));
    lo, end := d + 2, LineEnd(s, d + 2);
    NumberedCuts(s, i, d, end);
  }

  lemma NumberedIsFair(open: string, close: string, s: string, i: nat, k: nat)
    requires Sound(s) && i < |s| && IsMarkup(open) && IsMarkup(close)
    requires NumberedAt(s, i, open, close).Some?
    ensures Fair(Numbered(open, close), s, i, k, NumberedAt(s, i, open, close).value)
  {
    var lo, end := NumberedShape(open, close, s, i);
    WrappedIsFair(Numbered(open, close), s, i, k, lo, end, end, open, close);
  }

  lemma PairedShape(mark: string, open: string, close: string, s: string, i: nat) returns (lo: nat, hi: nat, end: nat)
    requires Breaks(mark) && PairedAt(s, i, mark, open, close).Some?
    ensures i < lo <= hi < end <= |s| && Cut(s, i) && Cut(s, lo) && Cut(s, hi) && Cut(s, end)
    ensures NUL !in s[i..lo] && NUL !in s[hi..end]
    ensures PairedAt(s, i, mark, open, close) == Some(Hit(i, end, open + s[lo..hi] + close))
  {
    lo, hi := i + |mark|, Find(s, mark, i + |mark|).value;
    end := hi + |mark|;
    BreaksAreNulFree(s, mark, i);
    BreaksAreNulFree(s, mark, hi);
  }

  lemma PairedIsFair(mark: string, open: string, close: string, s: string, i: nat, k: nat)
    requires Sound(s) && Breaks(mark) && IsMarkup(open) && IsMarkup(close)
    requires PairedAt(s, i, mark, open, close).Some?
    ensures Fair(Paired(mark, open, close), s, i, k, PairedAt(s, i, mark, open, close).value)
  {
    var lo, hi, end := PairedShape(mark, open, close, s, i);
    WrappedIsFair(Paired(mark, open, close), s, i, k, lo, hi, end, open, close);
  }

  lemma LinkMarkup()
    ensures IsMarkup(HREF) && IsMarkup(HREF_END) && IsMarkup(A_END) && IsMarkup(UL) && IsMarkup(UL_END)
  {
  }

  lemma LinkCuts(s: string, i: nat, p: nat, q: nat)
    requires i < p && p + 2 < q < |s| && s[i] == '[' && s[p] == ']' && s[p + 1] == '(' && s[q] == ')'
    ensures Cut(s, i) && Cut(s, i + 1) && Cut(s, p) && Cut(s, p + 2) && Cut(s, q) && Cut(s, q + 1)
    ensures NUL !in s[i..i + 1] && NUL !in s[p..p + 2] && NUL !in s[p + 2..p + 2] && NUL !in s[q..q + 1]
  {
  }

  lemma LinkNames(s: string, i: nat, p: nat, q: nat)
    requires Sound(s) && i < p && p + 2 < q < |s|
    requires Cut(s, i) && Cut(s, i + 1) && Cut(s, p) && Cut(s, p + 2) && Cut(s, q) && Cut(s, q + 1)
    requires NUL !in s[i..i + 1] && NUL !in s[p..p + 2] && NUL !in s[p + 2..p + 2] && NUL !in s[q..q + 1]
    ensures Sound(s[i + 1..p]) && Sound(s[p + 2..q])
    ensures Names(s[i..q + 1]) == Names(s[i + 1..p]) + Names(s[p + 2..q])
  {
    Middle(s, i, i + 1, p, p + 2);
    Middle(s, p + 2, p + 2, q, q + 1);
    NamesSplit(s, i, p + 2, q + 1);
  }

  lemma LinkIsSound(address: string, caption: string)
    requires Sound(address) && Sound(caption)
    ensures Sound(LinkText(address, caption))
    ensures Names(LinkText(address, caption)) == Names(address) + Names(caption)
  {
    LinkMarkup();
    WrapIsSound(HREF, address, HREF_END);
    MarkupIsSound(A_END);
    AppendIsSound(HREF + address + HREF_END, caption);
    AppendIsSound(HREF + address + HREF_END + caption, A_END);
  }

  lemma LinkEnds(address: string, caption: string)
    ensures
      var out := LinkText(address, caption);
      out != "" && !IsNameChar(out[0]) && !IsNameChar(Last(out))
  {
  }

  lemma LinkShape(s: string, i: nat) returns (p: nat, q: nat)
    requires i < |s| && LinkAt(s, i).Some?
    ensures i < p && p + 2 < q < |s| && s[i] == '[' && s[p] == ']' && s[p + 1] == '(' && s[q] == ')'
    ensures LinkAt(s, i) == Some(Hit(i, q + 1, LinkText(s[p + 2..q], s[i + 1..p])))
  {
    p := Run(s, i + 1, c => c != ']');
    q := Run(s, p + 2, c => c != ')');
  }

  lemma ExchangeIsFair(s: string, i: nat, k: nat, h: Hit, a: seq<string>, b: seq<string>)
    requires Placeable(s, i, h) && Sound(h.out)
    requires Names(s[h.at..h.end]) == a + b && Names(h.out) == b + a
    ensures Fair(Link, s, i, k, h)
  {
  }

  /** The caption and the address change places. */
  lemma SwappedIsFair(s: string, i: nat, k: nat, p: nat, q: nat)
    requires Sound(s) && i < p && p + 2 < q < |s|
    requires Cut(s, i) && Cut(s, i + 1) && Cut(s, p) && Cut(s, p + 2) && Cut(s, q) && Cut(s, q + 1)
    requires NUL !in s[i..i + 1] && NUL !in s[p..p + 2] && NUL !in s[p + 2..p + 2] && NUL !in s[q..q + 1]
    ensures Fair(Link, s, i, k, Hit(i, q + 1, LinkText(s[p + 2..q], s[i + 1..p])))
  {
    LinkNames(s, i, p, q);
    LinkIsSound(s[p + 2..q], s[i + 1..p]);
    LinkEnds(s[p + 2..q], s[i + 1..p]);
    var h := Hit(i, q + 1, LinkText(s[p + 2..q], s[i + 1..p]));
    ExchangeIsFair(s, i, k, h, Names(s[i + 1..p]), Names(s[p + 2..q]));
  }

  lemma LinkIsFair(s: string, i: nat, k: nat)
    requires Sound(s) && i < |s| && LinkAt(s, i).Some?
    ensures Fair(Link, s, i, k, LinkAt(s, i).value)
  {
    var p, q := LinkShape(s, i);
    LinkCuts(s, i, p, q);
    SwappedIsFair(s, i, k, p, q);
  }

  lemma ItemsIsFair(s: string, i: nat, k: nat)
    requires Sound(s) && i < |s| && ItemsAt(s, i).Some?
    ensures Fair(Items, s, i, k, ItemsAt(s, i).value)
  {
    var e := ItemsEnd(s, i);
    LinkMarkup();
    WrappedIsFair(Items, s, i, k, i, e, e, UL, UL_END);
  }

  /** Every match of every rule lies between placeholders and accounts for them. */
  lemma MatchIsFair(r: Rule, s: string, i: nat, k: nat)
    requires Sound(s) && Proper(r) && i < |s| && MatchAt(r, s, i, k).Some?
    ensures Fair(r, s, i, k, MatchAt(r, s, i, k).value)
  {
    match r
    case Extract(Block) => BlockIsFair(s, i, k);
    case Extract(Inline) => InlineIsFair(s, i, k);
    case Extract(Url) => UrlIsFair(s, i, k);
    case Entity(c, entity) => EntityIsFair(c, entity, s, i, k);
    case Prefixed(mark, open, close) => PrefixedIsFair(mark, open, close, s, i, k);
    case Numbered(open, close) => NumberedIsFair(open, close, s, i, k);
    case Paired(mark, open, close) => PairedIsFair(mark, open, close, s, i, k);
    case Link => LinkIsFair(s, i, k);
    case Items => ItemsIsFair(s, i, k);
  }
}
