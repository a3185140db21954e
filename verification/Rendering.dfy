/** What the reader of a converted text sees: emphasis, links, headers and list items, in so many words. */
module Rendering {
  import opened Common
  import opened JsText
  import opened Rules
  import opened Rewriting
  import opened Markdown
  import opened Sweeping
  import opened Restoring
  import opened Extraction
  import opened Conversion
  import opened Marks
  import opened Escaping

  // ---------- a line of text ----------

  /** `n` stars or underscores on either side, or a link. */
  datatype Style = Strong(mark: char, n: nat) | Anchor(address: string)

  /** Some text, then a piece with a style. */
  datatype Piece = Piece(lead: string, style: Style, body: string)

  /** Text that no rule touches inside a line. */
  predicate IsWord(s: string) {
    forall i :: 0 <= i < |s| ==> s[i] !in {'*', '_', '[', ']', ')'} && !IsLineEnd(s[i])
  }

  predicate IsPiece(p: Piece) {
    && p.body != "" && IsWord(p.body)
    && match p.style
       case Strong(mark, n) => (mark == '*' || mark == '_') && 1 <= n <= 3
       case Anchor(address) => address != "" && IsWord(address)
  }

  /** Pieces with text between them. */
  predicate IsLine(ps: seq<Piece>) {
    && (forall i :: 0 <= i < |ps| ==> IsPiece(ps[i]))
    && (forall i :: 0 < i < |ps| ==> ps[i].lead != "")
  }

  /** The text before, between and behind the pieces is free of `c`. */
  predicate Free(ps: seq<Piece>, tail: string, c: char) {
    c !in tail && forall i :: 0 <= i < |ps| ==> c !in ps[i].lead
  }

  function Open(n: nat): string {
    if n == 1 then "<i>" else if n == 2 then "<b>" else "<b><i>"
  }

  function Close(n: nat): string {
    if n == 1 then "</i>" else if n == 2 then "</b>" else "</i></b>"
  }

  /** The piece as it is written, before `rest`. */
  function Written(p: Piece, rest: string): string {
    match p.style
    case Strong(mark, n) => Times(mark, n) + (p.body + (Times(mark, n) + rest))
    case Anchor(address) => "[" + (p.body + ("](" + (address + (")" + rest))))
  }

  /** The piece as it is shown. */
  function Shown(p: Piece): string {
    match p.style
    case Strong(_, n) => Open(n) + p.body + Close(n)
    case Anchor(address) => "<a href=\"" + address + "\">" + p.body + "</a>"
  }

  /** The pass that deals with the piece. */
  function PassOf(p: Piece): nat
    requires IsPiece(p)
  {
    match p.style
    case Strong(mark, n) => (if mark == '*' then 0 else 3) + (3 - n)
    case Anchor(_) => 6
  }

  /** The line after `k` passes. */
  function Text(ps: seq<Piece>, tail: string, k: nat): string
    requires IsLine(ps)
  {
    if ps == [] then tail
    else
      var rest := Text(ps[1..], tail, k);
      ps[0].lead + if PassOf(ps[0]) < k then Shown(ps[0]) + rest else Written(ps[0], rest)
  }

  const PASSES := [STAR_BOTH, STAR_BOLD, STAR_ITALIC, LINE_BOTH, LINE_BOLD, LINE_ITALIC, Link]

  function MarkOf(k: nat): char {
    if k < 3 then '*' else if k < 6 then '_' else '['
  }

  lemma PassIs(k: nat)
    requires k < 7
    ensures Local(PASSES[k]) && Head(PASSES[k]) == MarkOf(k)
    ensures k < 6 ==> var n := 3 - k % 3; PASSES[k] == Paired(Times(MarkOf(k), n), Open(n), Close(n))
    ensures k == 6 ==> PASSES[k] == Link
  {
    assert Times('*', 3) == "***" && Times('*', 2) == "**" && Times('*', 1) == "*";
    assert Times('_', 3) == "___" && Times('_', 2) == "__" && Times('_', 1) == "_";
  }

  // ---------- one pass over a line ----------

  /** Shown pieces hold no mark. */
  lemma ShownIsFree(p: Piece, c: char)
    requires IsPiece(p) && c in {'*', '_', '['}
    ensures c !in Shown(p)
  {
    assert c !in p.body;
    assert p.style.Anchor? ==> c !in p.style.address;
  }

  lemma StrongInTurn(mark: char, n: nat, body: string, rest: string, k: nat)
    requires (mark == '*' || mark == '_') && 1 <= n <= 3 && k == (if mark == '*' then 0 else 3) + (3 - n)
    requires IsWord(body)
    ensures Swept(PASSES[k], Times(mark, n) + (body + (Times(mark, n) + rest))) ==
            Open(n) + body + Close(n) + Swept(PASSES[k], rest)
  {
    var r := PASSES[k];
    PassIs(k);
    assert r == Paired(Times(mark, n), Open(n), Close(n)) && r.mark[0] == mark;
    assert mark !in body;
    SweptPair(r, body, rest);
  }

  /** A piece whose turn it is. */
  lemma ItsTurn(p: Piece, rest: string)
    requires IsPiece(p)
    ensures Swept(PASSES[PassOf(p)], Written(p, rest)) == Shown(p) + Swept(PASSES[PassOf(p)], rest)
  {
    match p.style
    case Strong(mark, n) => StrongInTurn(mark, n, p.body, rest, PassOf(p));
    case Anchor(address) => SweptLink(p.body, address, rest);
  }

  /** A piece whose turn has yet to come. */
  lemma NotYet(p: Piece, rest: string, k: nat)
    requires IsPiece(p) && k < PassOf(p) && (rest != "" ==> rest[0] != MarkOf(k))
    ensures Swept(PASSES[k], Written(p, rest)) == Written(p, Swept(PASSES[k], rest))
  {
    var r, c := PASSES[k], MarkOf(k);
    PassIs(k);
    assert c !in p.body;
    match p.style
    case Strong(mark, n) =>
      if mark == c {
        SweptRun(r, mark, n, p.body + (Times(mark, n) + rest));
        SweptText(r, p.body, Times(mark, n) + rest);
        SweptRun(r, mark, n, rest);
      } else {
        SweptText(r, Times(mark, n), p.body + (Times(mark, n) + rest));
        SweptText(r, p.body, Times(mark, n) + rest);
        SweptText(r, Times(mark, n), rest);
      }
    case Anchor(address) =>
      assert c !in address;
      SweptText(r, "[", p.body + ("](" + (address + (")" + rest))));
      SweptText(r, p.body, "](" + (address + (")" + rest)));
      SweptText(r, "](", address + (")" + rest));
      SweptText(r, address, ")" + rest);
      SweptText(r, ")", rest);
  }

  lemma StartsFree(ps: seq<Piece>, tail: string, k: nat, c: char)
    requires IsLine(ps) && Free(ps, tail, c) && (ps != [] ==> ps[0].lead != "")
    ensures Text(ps, tail, k) != "" ==> Text(ps, tail, k)[0] != c
  {
    if ps != [] {
      assert ps[0].lead[0] in ps[0].lead;
    }
  }

  lemma LineBehind(ps: seq<Piece>, tail: string, c: char)
    requires ps != [] && IsLine(ps) && Free(ps, tail, c)
    ensures IsLine(ps[1..]) && Free(ps[1..], tail, c) && (ps[1..] != [] ==> ps[1..][0].lead != "")
  {
  }

  /** Each pass shows the pieces whose turn it is, and changes nothing else. */
  lemma {:induction false} OnePass(ps: seq<Piece>, tail: string, k: nat)
    requires k < 7 && IsLine(ps) && Free(ps, tail, MarkOf(k))
    ensures Swept(PASSES[k], Text(ps, tail, k)) == Text(ps, tail, k + 1)
  {
    var r, c := PASSES[k], MarkOf(k);
    PassIs(k);
    if ps == [] {
      SweptText(r, tail, "");
      assert tail + "" == tail;
    } else {
      var p, rest := ps[0], Text(ps[1..], tail, k);
      LineBehind(ps, tail, c);
      OnePass(ps[1..], tail, k);
      if PassOf(p) < k {
        ShownIsFree(p, c);
        SweptText(r, Shown(p), rest);
        SweptText(r, p.lead, Shown(p) + rest);
      } else {
        if PassOf(p) == k {
          ItsTurn(p, rest);
        } else {
          StartsFree(ps[1..], tail, k, c);
          NotYet(p, rest, k);
        }
        SweptText(r, p.lead, Written(p, rest));
      }
    }
  }

  /** The passes from `k` on. */
  lemma {:induction false} PassesFrom(ps: seq<Piece>, tail: string, k: nat)
    requires k <= 7 && IsLine(ps) && forall j :: k <= j < 7 ==> Free(ps, tail, MarkOf(j))
    ensures Formatted(Text(ps, tail, k), PASSES[k..]) == Text(ps, tail, 7)
    decreases 7 - k
  {
    if k < 7 {
      var t := Text(ps, tail, k);
      PassIs(k);
      assert Free(ps, tail, MarkOf(k));
      OnePass(ps, tail, k);
      RewriteIsSwept(PASSES[k], t, 0, 0);
      assert t[0..] == t && PASSES[k..][0] == PASSES[k] && PASSES[k..][1..] == PASSES[k + 1..];
      PassesFrom(ps, tail, k + 1);
    }
  }

  // ---------- the passes over whole lines ----------

  predicate OneLine(s: string) {
    forall i :: 0 <= i < |s| ==> !IsLineEnd(s[i])
  }

  lemma {:induction false} NothingHere(r: Rule, s: string, i: nat)
    requires i <= |s| && forall x :: i <= x < |s| ==> MatchAt(r, s, x, 0) == None
    ensures Next(r, s, i, 0) == None
    decreases |s| - i
  {
    if i < |s| {
      NothingHere(r, s, i + 1);
    }
  }

  lemma Stays(r: Rule, s: string)
    requires forall x :: 0 <= x < |s| ==> MatchAt(r, s, x, 0) == None
    ensures ReplaceAll(r, s) == s
  {
    NothingHere(r, s, 0);
    assert s[0..] == s;
  }

  lemma AtTheEnd(r: Rule, s: string, k: nat)
    ensures Rewrite(r, s, |s|, k) == ""
  {
  }

  /** A match of the whole text. */
  lemma AllOfIt(r: Rule, s: string, out: string)
    requires s != "" && MatchAt(r, s, 0, 0) == Some(Hit(0, |s|, out))
    ensures ReplaceAll(r, s) == out
  {
    Trades(r, s, 0, 0, |s|, out);
    AtTheEnd(r, s, 1);
    assert out + "" == out;
  }

  lemma EntityStays(level: nat, s: string)
    requires level < 3 && Char(level) !in s
    ensures ReplaceAll(Entity(Char(level), EntityOf(level)), s) == s
  {
    Stays(Entity(Char(level), EntityOf(level)), s);
  }

  lemma PrefixStays(mark: string, open: string, close: string, s: string)
    requires OneLine(s) && !Occurs(s, mark, 0)
    ensures ReplaceAll(Prefixed(mark, open, close), s) == s
  {
    Stays(Prefixed(mark, open, close), s);
  }

  lemma PrefixHits(mark: string, open: string, close: string, body: string)
    requires mark != "" && OneLine(mark) && OneLine(body)
    ensures ReplaceAll(Prefixed(mark, open, close), mark + body) == open + body + close
  {
    var s := mark + body;
    assert s[0..|mark|] == mark && s[|mark|..|s|] == body;
    assert forall i :: |mark| <= i < |s| ==> s[i] == body[i - |mark|];
    assert LineEnd(s, |mark|) == |s|;
    AllOfIt(Prefixed(mark, open, close), s, open + body + close);
  }

  lemma NumberStays(s: string)
    requires OneLine(s) && (s != "" ==> !Decimal.IsDigit(s[0]))
    ensures ReplaceAll(NUMBER_ITEM, s) == s
  {
    Stays(NUMBER_ITEM, s);
  }

  lemma NumberHits(digits: string, body: string)
    requires digits != "" && OneLine(body) && forall i :: 0 <= i < |digits| ==> Decimal.IsDigit(digits[i])
    ensures ReplaceAll(NUMBER_ITEM, digits + (". " + body)) == LI + body + LI_END
  {
    var s, d := digits + (". " + body), |digits|;
    assert s[d..d + 2] == ". " && s[d + 2..|s|] == body;
    assert forall i :: 0 <= i < d ==> s[i] == digits[i];
    assert forall i :: d + 2 <= i < |s| ==> s[i] == body[i - d - 2];
    assert s[d] == '.' && !Decimal.IsDigit(s[d]);
    assert Run(s, 0, c => Decimal.IsDigit(c)) == d;
    assert LineEnd(s, d + 2) == |s|;
    AllOfIt(NUMBER_ITEM, s, LI + body + LI_END);
  }

  /** Whatever tag is opened or closed, it is not one of a list item. */
  predicate NoItemTag(s: string) {
    forall i :: 0 <= i < |s| && s[i] == '<' ==> i + 2 < |s| && s[i + 1] != 'l' && s[i + 2] != 'l'
  }

  lemma ItemsStay(s: string)
    requires NoItemTag(s)
    ensures ReplaceAll(Items, s) == s
  {
    forall x | 0 <= x < |s|
      ensures MatchAt(Items, s, x, 0) == None
    {
      if Occurs(s, LI, x) {
        OccursAt(s, LI, x, 1);
      }
    }
    Stays(Items, s);
  }

  lemma ItemEnds(body: string, s: string)
    requires NoItemTag(body) && s == LI + body + LI_END
    ensures Find(s, LI_END, 4) == Some(4 + |body|)
  {
    var e := 4 + |body|;
    assert s[e..e + 5] == LI_END;
    forall j | 4 <= j < e
      ensures !Occurs(s, LI_END, j)
    {
      assert s[j] == body[j - 4];
      if Occurs(s, LI_END, j) {
        OccursAt(s, LI_END, j, 0);
        OccursAt(s, LI_END, j, 2);
      }
    }
    assert Occurs(s, LI_END, e);
  }

  lemma ItemsHit(body: string)
    requires NoItemTag(body)
    ensures ReplaceAll(Items, LI + body + LI_END) == UL + (LI + body + LI_END) + UL_END
  {
    var s := LI + body + LI_END;
    ItemEnds(body, s);
    assert s[0..4] == LI && s[0..|s|] == s;
    assert ItemEnd(s, 0) == Some(|s|) && ItemsEnd(s, |s|) == |s|;
    AllOfIt(Items, s, UL + s + UL_END);
  }

  // ---------- a line from beginning to end ----------

  /** Text that is in no placeholder, code, address or tag, and on one line. */
  predicate IsQuiet(s: string) {
    forall i :: 0 <= i < |s| ==> s[i] !in {NUL, '`', ':', '&', '<', '>'} && !IsLineEnd(s[i])
  }

  predicate IsQuietPiece(p: Piece) {
    IsQuiet(p.lead) && IsQuiet(p.body) && (p.style.Anchor? ==> IsQuiet(p.style.address))
  }

  predicate IsQuietLine(ps: seq<Piece>, tail: string) {
    IsLine(ps) && IsQuiet(tail) && forall i :: 0 <= i < |ps| ==> IsQuietPiece(ps[i])
  }

  /** A line as it is written. */
  function Line(ps: seq<Piece>, tail: string): string {
    if ps == [] then tail else ps[0].lead + Written(ps[0], Line(ps[1..], tail))
  }

  /** A line as it is shown. */
  function ShownLine(ps: seq<Piece>, tail: string): string {
    if ps == [] then tail else ps[0].lead + (Shown(ps[0]) + ShownLine(ps[1..], tail))
  }

  lemma {:induction false} TextIsLine(ps: seq<Piece>, tail: string, k: nat)
    requires IsLine(ps) && forall i :: 0 <= i < |ps| ==> k <= PassOf(ps[i])
    ensures Text(ps, tail, k) == Line(ps, tail)
  {
    if ps != [] {
      TextIsLine(ps[1..], tail, k);
    }
  }

  lemma {:induction false} TextIsShown(ps: seq<Piece>, tail: string)
    requires IsLine(ps)
    ensures Text(ps, tail, 7) == ShownLine(ps, tail)
  {
    if ps != [] {
      TextIsShown(ps[1..], tail);
    }
  }

  lemma WrittenIsQuiet(p: Piece, rest: string)
    requires IsPiece(p) && IsQuietPiece(p) && IsQuiet(rest)
    ensures IsQuiet(Written(p, rest))
  {
  }

  lemma {:induction false} LineIsQuiet(ps: seq<Piece>, tail: string)
    requires IsQuietLine(ps, tail)
    ensures IsQuiet(Line(ps, tail))
    decreases |ps|
  {
    if ps != [] {
      LineIsQuiet(ps[1..], tail);
      WrittenIsQuiet(ps[0], Line(ps[1..], tail));
    }
  }

  /** What is shown of a quiet line is on one line, has no placeholder, and no tag of a list item. */
  predicate IsTidy(s: string) {
    NoItemTag(s) && OneLine(s) && NUL !in s
  }

  lemma TidyAppend(a: string, b: string)
    requires IsTidy(a) && IsTidy(b)
    ensures IsTidy(a + b)
  {
    forall i | 0 <= i < |a + b| && (a + b)[i] == '<'
      ensures i + 2 < |a + b| && (a + b)[i + 1] != 'l' && (a + b)[i + 2] != 'l'
    {
      if i < |a| {
        assert a[i] == '<';
      } else {
        assert b[i - |a|] == '<';
      }
    }
  }

  lemma QuietIsTidy(s: string)
    requires IsQuiet(s)
    ensures IsTidy(s)
  {
  }

  lemma TagsAreTidy()
    ensures IsTidy("<i>") && IsTidy("<b>") && IsTidy("<b><i>") && IsTidy("</i>") && IsTidy("</b>") && IsTidy("</i></b>")
  {
  }

  lemma AnchorTagsAreTidy()
    ensures IsTidy("<a href=\"") && IsTidy("\">") && IsTidy("</a>")
  {
  }

  lemma ShownIsTidy(p: Piece)
    requires IsPiece(p) && IsQuietPiece(p)
    ensures IsTidy(Shown(p))
  {
    QuietIsTidy(p.body);
    match p.style
    case Strong(_, n) =>
      TagsAreTidy();
      TidyAppend(Open(n), p.body);
      TidyAppend(Open(n) + p.body, Close(n));
    case Anchor(address) =>
      AnchorTagsAreTidy();
      QuietIsTidy(address);
      TidyAppend("<a href=\"", address);
      TidyAppend("<a href=\"" + address, "\">");
      TidyAppend("<a href=\"" + address + "\">", p.body);
      TidyAppend("<a href=\"" + address + "\">" + p.body, "</a>");
  }

  lemma {:induction false} ShownLineIsTidy(ps: seq<Piece>, tail: string)
    requires IsQuietLine(ps, tail)
    ensures IsTidy(ShownLine(ps, tail))
    decreases |ps|
  {
    QuietIsTidy(tail);
    if ps != [] {
      var rest := ShownLine(ps[1..], tail);
      ShownLineIsTidy(ps[1..], tail);
      ShownIsTidy(ps[0]);
      QuietIsTidy(ps[0].lead);
      TidyAppend(Shown(ps[0]), rest);
      TidyAppend(ps[0].lead, Shown(ps[0]) + rest);
    }
  }

  // ---------- the stages of the conversion ----------

  const ENTITIES := [Entity('&', "&amp;"), Entity('<', "&lt;"), Entity('>', "&gt;")]
  const HEADERS := [H3, H2, H1]
  const LISTS := [STAR_ITEM, DASH_ITEM, NUMBER_ITEM, Items]

  lemma {:induction false} FormattedAppend(s: string, a: seq<Rule>, b: seq<Rule>)
    ensures Formatted(s, a + b) == Formatted(Formatted(s, a), b)
    decreases |a|
  {
    if a == [] {
      assert a + b == b;
    } else {
      assert (a + b)[1..] == a[1..] + b;
      FormattedAppend(ReplaceAll(a[0], s), a[1..], b);
    }
  }

  /** Escape, headers, emphasis and links, lists: in this order. */
  lemma FormattedInStages(s: string)
    ensures Formatted(s, FORMATTING) ==
            Formatted(Formatted(Formatted(Formatted(s, ENTITIES), HEADERS), PASSES), LISTS)
  {
    assert FORMATTING == ENTITIES + HEADERS + PASSES + LISTS;
    FormattedAppend(s, ENTITIES + HEADERS + PASSES, LISTS);
    FormattedAppend(s, ENTITIES + HEADERS, PASSES);
    FormattedAppend(s, ENTITIES, HEADERS);
  }

  lemma OneRule(s: string, r: Rule, more: seq<Rule>)
    ensures Formatted(s, [r] + more) == Formatted(ReplaceAll(r, s), more)
  {
    assert ([r] + more)[1..] == more;
  }

  lemma ThreeRules(s: string, a: Rule, b: Rule, c: Rule)
    ensures Formatted(s, [a, b, c]) == ReplaceAll(c, ReplaceAll(b, ReplaceAll(a, s)))
  {
    assert [a, b, c] == [a] + ([b] + ([c] + []));
    OneRule(s, a, [b] + ([c] + []));
    OneRule(ReplaceAll(a, s), b, [c] + []);
    OneRule(ReplaceAll(b, ReplaceAll(a, s)), c, []);
  }

  lemma FourRules(s: string, a: Rule, b: Rule, c: Rule, d: Rule)
    ensures Formatted(s, [a, b, c, d]) == ReplaceAll(d, ReplaceAll(c, ReplaceAll(b, ReplaceAll(a, s))))
  {
    assert [a, b, c, d] == [a] + [b, c, d];
    OneRule(s, a, [b, c, d]);
    ThreeRules(ReplaceAll(a, s), b, c, d);
  }

  lemma NothingToEscape(s: string)
    requires IsQuiet(s)
    ensures Formatted(s, ENTITIES) == s
  {
    EntityStays(0, s);
    EntityStays(1, s);
    EntityStays(2, s);
    ThreeRules(s, ENTITIES[0], ENTITIES[1], ENTITIES[2]);
  }

  lemma NothingToExtract(s: string)
    requires IsQuiet(s)
    ensures Skeleton(s) == s
  {
    forall kind, x | 0 <= x < |s|
      ensures MatchAt(Extract(kind), s, x, 0) == None
    {
      QuietHasNoMatch(kind, s, x);
    }
    Stays(Extract(Block), s);
    Stays(Extract(Inline), s);
    Stays(Extract(Url), s);
  }

  lemma QuietHasNoWord(s: string, word: string, i: nat, j: nat)
    requires IsQuiet(s) && j < |word| && word[j] in {'`', ':'}
    ensures !Occurs(s, word, i)
  {
    if Occurs(s, word, i) {
      OccursAt(s, word, i, j);
    }
  }

  lemma QuietHasNoUrl(s: string, i: nat)
    requires IsQuiet(s)
    ensures UrlEnd(s, i) == None
  {
    QuietHasNoWord(s, "http://", i, 4);
    QuietHasNoWord(s, "https://", i, 5);
    QuietHasNoWord(s, "file://", i, 4);
  }

  lemma QuietHasNoMatch(kind: Kind, s: string, x: nat)
    requires IsQuiet(s) && x < |s|
    ensures MatchAt(Extract(kind), s, x, 0) == None
  {
    match kind
    case Block => QuietHasNoWord(s, "```", x, 0);
    case Inline =>
    case Url =>
      QuietHasNoUrl(s, x);
      QuietHasNoUrl(s, x + 1);
  }

  /** A quiet text is only formatted. */
  lemma OnlyFormatted(text: string, missing: string, shown: string)
    requires IsQuiet(text) && Formatted(text, FORMATTING) == shown && NUL !in shown
    ensures Converted(text, missing) == shown
  {
    NothingToExtract(text);
    NulFreeRestores(Url, shown, Stored(text, Url, missing));
    NulFreeRestores(Block, shown, Stored(text, Block, missing));
    NulFreeRestores(Inline, shown, Stored(text, Inline, missing));
  }

  predicate IsFree(ps: seq<Piece>, tail: string) {
    Free(ps, tail, '*') && Free(ps, tail, '_') && Free(ps, tail, '[')
  }

  lemma LineIsShown(ps: seq<Piece>, tail: string)
    requires IsLine(ps) && IsFree(ps, tail)
    ensures Formatted(Line(ps, tail), PASSES) == ShownLine(ps, tail)
  {
    TextIsLine(ps, tail, 0);
    TextIsShown(ps, tail);
    PassesFrom(ps, tail, 0);
    assert PASSES[0..] == PASSES;
  }

  /** A quiet text, from what the headers make of it to what the lists make of the shown line. */
  lemma ByStages(text: string, ps: seq<Piece>, tail: string, shown: string, missing: string)
    requires IsQuiet(text) && IsLine(ps) && IsFree(ps, tail)
    requires Formatted(text, HEADERS) == Line(ps, tail) && Formatted(ShownLine(ps, tail), LISTS) == shown
    requires NUL !in shown
    ensures Converted(text, missing) == shown
  {
    FormattedInStages(text);
    NothingToEscape(text);
    LineIsShown(ps, tail);
    OnlyFormatted(text, missing, shown);
  }

  /** The text does not begin as a header or a list item does. */
  predicate StartsPlain(s: string) {
    s != "" ==> s[0] !in {'#', '-', '*'} && !Decimal.IsDigit(s[0])
  }

  lemma NoHeader(s: string)
    requires OneLine(s) && (s != "" ==> s[0] != '#')
    ensures Formatted(s, HEADERS) == s
  {
    PrefixStays("### ", "<h3>", "</h3>", s);
    PrefixStays("## ", "<h2>", "</h2>", s);
    PrefixStays("# ", "<h1>", "</h1>", s);
    ThreeRules(s, H3, H2, H1);
  }

  lemma NoItem(s: string)
    requires OneLine(s) && StartsPlain(s) && NoItemTag(s)
    ensures Formatted(s, LISTS) == s
  {
    PrefixStays("* ", LI, LI_END, s);
    PrefixStays("- ", LI, LI_END, s);
    NumberStays(s);
    ItemsStay(s);
    FourRules(s, STAR_ITEM, DASH_ITEM, NUMBER_ITEM, Items);
  }

  lemma ShownStarts(ps: seq<Piece>, tail: string)
    requires IsLine(ps) && IsFree(ps, tail) && (ps != [] && ps[0].lead != "" ==> StartsPlain(ps[0].lead))
    requires ps == [] ==> StartsPlain(tail)
    ensures StartsPlain(ShownLine(ps, tail))
  {
    if ps != [] {
      assert Shown(ps[0])[0] == '<';
    }
  }

  /**
   A line of text, with any number of emphasised pieces and links in it: each piece is shown with the
   tags of its marks, and the text around them stays.
   */
  lemma ParagraphIsShown(ps: seq<Piece>, tail: string, missing: string)
    requires IsQuietLine(ps, tail) && IsFree(ps, tail)
    requires if ps == [] then StartsPlain(tail) else ps[0].lead != "" ==> StartsPlain(ps[0].lead)
    ensures Converted(Line(ps, tail), missing) == ShownLine(ps, tail)
  {
    var t, u := Line(ps, tail), ShownLine(ps, tail);
    LineIsQuiet(ps, tail);
    ShownLineIsTidy(ps, tail);
    ShownStarts(ps, tail);
    NoHeader(t);
    NoItem(u);
    ByStages(t, ps, tail, u, missing);
  }

  // ---------- a line with something around it ----------

  function AroundPieces(before: string, ps: seq<Piece>): seq<Piece> {
    if ps == [] then [] else [ps[0].(lead := before + ps[0].lead)] + ps[1..]
  }

  function AroundTail(before: string, ps: seq<Piece>, tail: string, behind: string): string {
    if ps == [] then before + tail + behind else tail + behind
  }

  lemma WrittenBehind(p: Piece, rest: string, behind: string)
    ensures Written(p, rest) + behind == Written(p, rest + behind)
  {
    match p.style
    case Strong(mark, n) =>
      Associate(Times(mark, n), p.body + (Times(mark, n) + rest), behind);
      Associate(p.body, Times(mark, n) + rest, behind);
      Associate(Times(mark, n), rest, behind);
    case Anchor(address) =>
      Associate("[", p.body + ("](" + (address + (")" + rest))), behind);
      Associate(p.body, "](" + (address + (")" + rest)), behind);
      Associate("](", address + (")" + rest), behind);
      Associate(address, ")" + rest, behind);
      Associate(")", rest, behind);
  }

  lemma {:induction false} LineBefore(ps: seq<Piece>, tail: string, behind: string)
    ensures Line(ps, tail + behind) == Line(ps, tail) + behind
    ensures ShownLine(ps, tail + behind) == ShownLine(ps, tail) + behind
    decreases |ps|
  {
    if ps != [] {
      var p, rest, shown := ps[0], Line(ps[1..], tail), ShownLine(ps[1..], tail);
      LineBefore(ps[1..], tail, behind);
      WrittenBehind(p, rest, behind);
      Associate(p.lead, Written(p, rest), behind);
      Associate(Shown(p), shown, behind);
      Associate(p.lead, Shown(p) + shown, behind);
    }
  }

  lemma LineAround(before: string, ps: seq<Piece>, tail: string, behind: string)
    ensures
      var qs, end := AroundPieces(before, ps), AroundTail(before, ps, tail, behind);
      && Line(qs, end) == before + Line(ps, tail) + behind
      && ShownLine(qs, end) == before + ShownLine(ps, tail) + behind
  {
    if ps != [] {
      var p, end := ps[0], tail + behind;
      var qs := AroundPieces(before, ps);
      assert qs[1..] == ps[1..] && qs[0] == p.(lead := before + p.lead);
      assert Written(qs[0], Line(ps[1..], end)) == Written(p, Line(ps[1..], end)) && Shown(qs[0]) == Shown(p);
      Associate(before, p.lead, Written(p, Line(ps[1..], end)));
      Associate(before, p.lead, Shown(p) + ShownLine(ps[1..], end));
      LineBefore(ps, tail, behind);
      Associate(before, Line(ps, tail), behind);
      Associate(before, ShownLine(ps, tail), behind);
    }
  }

  lemma AroundIsFree(before: string, ps: seq<Piece>, tail: string, behind: string, c: char)
    requires Free(ps, tail, c) && c !in before && c !in behind
    ensures Free(AroundPieces(before, ps), AroundTail(before, ps, tail, behind), c)
  {
  }

  lemma AroundIsLine(before: string, ps: seq<Piece>)
    requires IsLine(ps)
    ensures IsLine(AroundPieces(before, ps))
  {
  }

  /** A line between two stretches of text without marks. */
  lemma ShownAround(text: string, before: string, ps: seq<Piece>, tail: string, behind: string, shown: string,
                    missing: string)
    requires IsQuiet(text) && IsLine(ps) && IsFree(ps, tail) && IsFree([], before) && IsFree([], behind)
    requires Formatted(text, HEADERS) == before + Line(ps, tail) + behind
    requires Formatted(before + ShownLine(ps, tail) + behind, LISTS) == shown && NUL !in shown
    ensures Converted(text, missing) == shown
  {
    LineAround(before, ps, tail, behind);
    AroundIsLine(before, ps);
    AroundIsFree(before, ps, tail, behind, '*');
    AroundIsFree(before, ps, tail, behind, '_');
    AroundIsFree(before, ps, tail, behind, '[');
    ByStages(text, AroundPieces(before, ps), AroundTail(before, ps, tail, behind), shown, missing);
  }

  // ---------- headers ----------

  function HeaderMark(level: nat): string
    requires 1 <= level <= 3
  {
    if level == 1 then "# " else if level == 2 then "## " else "### "
  }

  function HeaderOpen(level: nat): string
    requires 1 <= level <= 3
  {
    if level == 1 then "<h1>" else if level == 2 then "<h2>" else "<h3>"
  }

  function HeaderClose(level: nat): string
    requires 1 <= level <= 3
  {
    if level == 1 then "</h1>" else if level == 2 then "</h2>" else "</h3>"
  }

  function HeaderRule(level: nat): Rule
    requires 1 <= level <= 3
  {
    if level == 1 then H1 else if level == 2 then H2 else H3
  }

  lemma HeaderRuleIs(level: nat)
    requires 1 <= level <= 3
    ensures HeaderRule(level) == Prefixed(HeaderMark(level), HeaderOpen(level), HeaderClose(level))
  {
  }

  lemma OtherLevel(level: nat, other: nat, line: string)
    requires 1 <= level < other <= 3 && OneLine(line)
    ensures ReplaceAll(HeaderRule(other), HeaderMark(level) + line) == HeaderMark(level) + line
  {
    var s, mark := HeaderMark(level) + line, HeaderMark(other);
    assert s[level] == ' ' && mark[level] == '#';
    assert !Occurs(s, mark, 0) by {
      assert |mark| <= |s| ==> s[0..|mark|][level] != mark[level];
    }
    HeaderRuleIs(other);
    PrefixStays(mark, HeaderOpen(other), HeaderClose(other), s);
  }

  lemma OwnLevel(level: nat, line: string)
    requires 1 <= level <= 3 && OneLine(line)
    ensures ReplaceAll(HeaderRule(level), HeaderMark(level) + line) == HeaderOpen(level) + line + HeaderClose(level)
  {
    HeaderRuleIs(level);
    PrefixHits(HeaderMark(level), HeaderOpen(level), HeaderClose(level), line);
  }

  lemma TaggedStays(level: nat, other: nat, line: string)
    requires 1 <= level <= 3 && 1 <= other <= 3 && OneLine(line)
    ensures
      var tagged := HeaderOpen(level) + line + HeaderClose(level);
      ReplaceAll(HeaderRule(other), tagged) == tagged
  {
    var tagged := HeaderOpen(level) + line + HeaderClose(level);
    HeaderRuleIs(other);
    assert tagged[0] == '<';
    PrefixStays(HeaderMark(other), HeaderOpen(other), HeaderClose(other), tagged);
  }

  /** Exactly the header pass of its level matches a header. */
  lemma HeaderIsTagged(level: nat, line: string)
    requires 1 <= level <= 3 && OneLine(line)
    ensures Formatted(HeaderMark(level) + line, HEADERS) == HeaderOpen(level) + line + HeaderClose(level)
  {
    ThreeRules(HeaderMark(level) + line, HeaderRule(3), HeaderRule(2), HeaderRule(1));
    OwnLevel(level, line);
    if level < 3 { OtherLevel(level, 3, line); } else { TaggedStays(level, 2, line); }
    if level < 2 { OtherLevel(level, 2, line); } else { TaggedStays(level, 1, line); }
  }

  lemma HeaderTagsAreTidy(level: nat)
    requires 1 <= level <= 3
    ensures IsTidy(HeaderOpen(level)) && IsTidy(HeaderClose(level)) && HeaderOpen(level)[0] == '<'
    ensures IsFree([], HeaderOpen(level)) && IsFree([], HeaderClose(level)) && IsQuiet(HeaderMark(level))
  {
  }

  /** A header of one, two or three marks, with whatever pieces in it. */
  lemma HeaderIsShown(level: nat, ps: seq<Piece>, tail: string, missing: string)
    requires 1 <= level <= 3 && IsQuietLine(ps, tail) && IsFree(ps, tail)
    ensures Converted(HeaderMark(level) + Line(ps, tail), missing) ==
            HeaderOpen(level) + ShownLine(ps, tail) + HeaderClose(level)
  {
    var open, close := HeaderOpen(level), HeaderClose(level);
    var text, u := HeaderMark(level) + Line(ps, tail), ShownLine(ps, tail);
    HeaderTagsAreTidy(level);
    LineIsQuiet(ps, tail);
    HeaderIsTagged(level, Line(ps, tail));
    ShownLineIsTidy(ps, tail);
    TidyAppend(open, u);
    TidyAppend(open + u, close);
    NoItem(open + u + close);
    ShownAround(text, open, ps, tail, close, open + u + close, missing);
  }

  // ---------- list items ----------

  lemma ItemIsListed(body: string)
    requires NoItemTag(body) && OneLine(body)
    ensures ReplaceAll(NUMBER_ITEM, LI + body + LI_END) == LI + body + LI_END
    ensures ReplaceAll(Items, LI + body + LI_END) == "<ul><li>" + body + "</li></ul>"
  {
    NumberStays(LI + body + LI_END);
    ItemsHit(body);
    assert UL + (LI + body + LI_END) + UL_END == "<ul><li>" + body + "</li></ul>";
  }

  lemma DashIsListed(body: string)
    requires NoItemTag(body) && OneLine(body)
    ensures Formatted("- " + body, LISTS) == "<ul><li>" + body + "</li></ul>"
  {
    PrefixStays("* ", LI, LI_END, "- " + body);
    PrefixHits("- ", LI, LI_END, body);
    ItemIsListed(body);
    FourRules("- " + body, STAR_ITEM, DASH_ITEM, NUMBER_ITEM, Items);
  }

  lemma NumberIsListed(digits: string, body: string)
    requires digits != "" && forall i :: 0 <= i < |digits| ==> Decimal.IsDigit(digits[i])
    requires NoItemTag(body) && OneLine(body)
    ensures Formatted(digits + (". " + body), LISTS) == "<ul><li>" + body + "</li></ul>"
  {
    var s := digits + (". " + body);
    assert s[0] == digits[0];
    PrefixStays("* ", LI, LI_END, s);
    PrefixStays("- ", LI, LI_END, s);
    NumberHits(digits, body);
    ItemIsListed(body);
    FourRules(s, STAR_ITEM, DASH_ITEM, NUMBER_ITEM, Items);
  }

  lemma ListTagsAreTidy(shown: string)
    requires IsTidy(shown)
    ensures NUL !in "<ul><li>" + shown + "</li></ul>"
  {
  }

  lemma QuietAppend(a: string, b: string)
    requires IsQuiet(a) && IsQuiet(b)
    ensures IsQuiet(a + b)
  {
  }

  lemma ShownBehind(before: string, ps: seq<Piece>, tail: string, shown: string, missing: string)
    requires IsQuiet(before + Line(ps, tail)) && IsLine(ps) && IsFree(ps, tail) && IsFree([], before)
    requires Formatted(before + Line(ps, tail), HEADERS) == before + Line(ps, tail)
    requires Formatted(before + ShownLine(ps, tail), LISTS) == shown && NUL !in shown
    ensures Converted(before + Line(ps, tail), missing) == shown
  {
    assert before + Line(ps, tail) + "" == before + Line(ps, tail);
    assert before + ShownLine(ps, tail) + "" == before + ShownLine(ps, tail);
    ShownAround(before + Line(ps, tail), before, ps, tail, "", shown, missing);
  }

  /** What marks a list item is not a header. */
  lemma ItemIsShown(before: string, ps: seq<Piece>, tail: string, missing: string)
    requires IsQuietLine(ps, tail) && IsFree(ps, tail)
    requires before != "" && before[0] != '#' && IsQuiet(before) && IsFree([], before)
    requires Formatted(before + ShownLine(ps, tail), LISTS) == "<ul><li>" + ShownLine(ps, tail) + "</li></ul>"
    ensures Converted(before + Line(ps, tail), missing) == "<ul><li>" + ShownLine(ps, tail) + "</li></ul>"
  {
    LineIsQuiet(ps, tail);
    QuietAppend(before, Line(ps, tail));
    ShownLineIsTidy(ps, tail);
    NoHeader(before + Line(ps, tail));
    ListTagsAreTidy(ShownLine(ps, tail));
    ShownBehind(before, ps, tail, "<ul><li>" + ShownLine(ps, tail) + "</li></ul>", missing);
  }

  /** An item behind a dash, with whatever pieces in it. */
  lemma DashItemIsShown(ps: seq<Piece>, tail: string, missing: string)
    requires IsQuietLine(ps, tail) && IsFree(ps, tail)
    ensures Converted("- " + Line(ps, tail), missing) == "<ul><li>" + ShownLine(ps, tail) + "</li></ul>"
  {
    ShownLineIsTidy(ps, tail);
    DashIsListed(ShownLine(ps, tail));
    ItemIsShown("- ", ps, tail, missing);
  }

  /** An item behind a number. */
  lemma NumberItemIsShown(digits: string, ps: seq<Piece>, tail: string, missing: string)
    requires digits != "" && forall i :: 0 <= i < |digits| ==> Decimal.IsDigit(digits[i])
    requires IsQuietLine(ps, tail) && IsFree(ps, tail)
    ensures Converted(digits + ". " + Line(ps, tail), missing) == "<ul><li>" + ShownLine(ps, tail) + "</li></ul>"
  {
    var before := digits + ". ";
    ShownLineIsTidy(ps, tail);
    NumberIsListed(digits, ShownLine(ps, tail));
    Associate(digits, ". ", ShownLine(ps, tail));
    assert before[0] == digits[0];
    ItemIsShown(before, ps, tail, missing);
  }

  // ---------- in so many words ----------

  lemma OnePiece(style: Style, w: string, missing: string)
    requires IsPiece(Piece("", style, w)) && IsQuietPiece(Piece("", style, w))
    ensures Converted(Written(Piece("", style, w), ""), missing) == Shown(Piece("", style, w))
  {
    var p := Piece("", style, w);
    ParagraphIsShown([p], "", missing);
    assert Line([p], "") == "" + Written(p, "") && ShownLine([p], "") == "" + (Shown(p) + "");
    assert "" + Written(p, "") == Written(p, "") && "" + (Shown(p) + "") == Shown(p);
  }

  lemma StrongIsShown(mark: char, n: nat, w: string, missing: string)
    requires (mark == '*' || mark == '_') && 1 <= n <= 3 && w != "" && IsWord(w) && IsQuiet(w)
    ensures Converted(Times(mark, n) + w + Times(mark, n), missing) == Open(n) + w + Close(n)
  {
    OnePiece(Strong(mark, n), w, missing);
    assert Times(mark, n) + (w + (Times(mark, n) + "")) == Times(mark, n) + w + Times(mark, n);
  }

  /** Words between one, two or three stars. */
  lemma StarsAreShown(w: string, missing: string)
    requires w != "" && IsWord(w) && IsQuiet(w)
    ensures Converted("*" + w + "*", missing) == "<i>" + w + "</i>"
    ensures Converted("**" + w + "**", missing) == "<b>" + w + "</b>"
    ensures Converted("***" + w + "***", missing) == "<b><i>" + w + "</i></b>"
  {
    StrongIsShown('*', 1, w, missing);
    StrongIsShown('*', 2, w, missing);
    StrongIsShown('*', 3, w, missing);
    assert Times('*', 1) == "*" && Times('*', 2) == "**" && Times('*', 3) == "***";
  }

  /** Words between one, two or three underscores. */
  lemma LinesAreShown(w: string, missing: string)
    requires w != "" && IsWord(w) && IsQuiet(w)
    ensures Converted("_" + w + "_", missing) == "<i>" + w + "</i>"
    ensures Converted("__" + w + "__", missing) == "<b>" + w + "</b>"
    ensures Converted("___" + w + "___", missing) == "<b><i>" + w + "</i></b>"
  {
    StrongIsShown('_', 1, w, missing);
    StrongIsShown('_', 2, w, missing);
    StrongIsShown('_', 3, w, missing);
    assert Times('_', 1) == "_" && Times('_', 2) == "__" && Times('_', 3) == "___";
  }

  lemma LinkParts(a: string, w: string, b: string, v: string, c: string)
    ensures a + (w + (b + (v + (c + "")))) == a + w + b + v + c
  {
  }

  /** A caption and its address. */
  lemma LinkIsShown(w: string, v: string, missing: string)
    requires w != "" && IsWord(w) && IsQuiet(w) && v != "" && IsWord(v) && IsQuiet(v)
    ensures Converted("[" + w + "](" + v + ")", missing) == "<a href=\"" + v + "\">" + w + "</a>"
  {
    OnePiece(Anchor(v), w, missing);
    LinkParts("[", w, "](", v, ")");
  }

  /** Words behind the mark of a header. */
  lemma HeadersAreShown(w: string, missing: string)
    requires IsWord(w) && IsQuiet(w)
    ensures Converted("# " + w, missing) == "<h1>" + w + "</h1>"
    ensures Converted("## " + w, missing) == "<h2>" + w + "</h2>"
    ensures Converted("### " + w, missing) == "<h3>" + w + "</h3>"
  {
    WordsAreFree(w);
    HeaderIsShown(1, [], w, missing);
    HeaderIsShown(2, [], w, missing);
    HeaderIsShown(3, [], w, missing);
  }

  lemma WordsAreFree(w: string)
    requires IsWord(w) && IsQuiet(w)
    ensures IsFree([], w) && IsQuietLine([], w)
  {
  }

  /** Words behind the mark of a list item. */
  lemma ItemsAreShown(w: string, missing: string)
    requires IsWord(w) && IsQuiet(w)
    ensures Converted("- " + w, missing) == "<ul><li>" + w + "</li></ul>"
    ensures Converted("1. " + w, missing) == "<ul><li>" + w + "</li></ul>"
    ensures Converted("* " + w, missing) == "<ul><li>" + w + "</li></ul>"
  {
    WordsAreFree(w);
    DashItemIsShown([], w, missing);
    NumberItemIsShown("1", [], w, missing);
    assert "1" + ". " == "1. ";
    StarItemIsShown(w, missing);
  }

  // ---------- an item behind a star ----------

  lemma NoSecondStar(w: string)
    requires '*' !in w
    ensures PairedAt("*" + w, 0, "*", "<i>", "</i>") == None
  {
    var t := "*" + w;
    var h := PairedAt(t, 0, "*", "<i>", "</i>");
    if h.Some? {
      PairedIs("*", "<i>", "</i>", t, 0, h.value.end);
      OccursAt(t, "*", h.value.end - 1, 0);
    }
  }

  lemma LoneStar(k: nat, w: string)
    requires k < 7 && '*' !in w && (w != "" ==> w[0] != '*')
    ensures Swept(PASSES[k], "*" + w) == "*" + Swept(PASSES[k], w)
  {
    PassIs(k);
    var t := "*" + w;
    if k < 2 {
      SweptRun(PASSES[k], '*', 1, w);
      assert Times('*', 1) == "*";
    } else if k == 2 {
      assert Times('*', 1) == "*";
      NoSecondStar(w);
      SweptKeeps(PASSES[k], t);
      assert t[1..] == w;
    } else {
      SweptText(PASSES[k], "*", w);
    }
  }

  lemma StarItemPasses(w: string, k: nat)
    requires k <= 7 && IsFree([], w)
    ensures Formatted("* " + w, PASSES[k..]) == "* " + w
    decreases 7 - k
  {
    if k < 7 {
      var t := "* " + w;
      PassIs(k);
      assert t == "*" + (" " + w) && t[0..] == t;
      LoneStar(k, " " + w);
      SweptText(PASSES[k], " " + w, "");
      assert " " + w + "" == " " + w;
      RewriteIsSwept(PASSES[k], t, 0, 0);
      assert PASSES[k..][0] == PASSES[k] && PASSES[k..][1..] == PASSES[k + 1..];
      StarItemPasses(w, k + 1);
    }
  }

  lemma StartsWith(mark: string, s: string)
    requires mark != ""
    ensures Occurs(s, mark, 0) ==> s != "" && s[0] == mark[0]
  {
    if Occurs(s, mark, 0) {
      OccursAt(s, mark, 0, 0);
    }
  }

  lemma ItemIsNoDash(body: string)
    requires OneLine(body)
    ensures ReplaceAll(DASH_ITEM, LI + body + LI_END) == LI + body + LI_END
  {
    var s := LI + body + LI_END;
    assert s[0] == '<';
    StartsWith("- ", s);
    PrefixStays("- ", LI, LI_END, s);
  }

  lemma StarIsListed(w: string)
    requires NoItemTag(w) && OneLine(w)
    ensures Formatted("* " + w, LISTS) == "<ul><li>" + w + "</li></ul>"
  {
    PrefixHits("* ", LI, LI_END, w);
    ItemIsNoDash(w);
    ItemIsListed(w);
    FourRules("* " + w, STAR_ITEM, DASH_ITEM, NUMBER_ITEM, Items);
  }

  /** Words behind a star and a space: the star is not emphasis. */
  lemma StarItemIsShown(w: string, missing: string)
    requires IsWord(w) && IsQuiet(w)
    ensures Converted("* " + w, missing) == "<ul><li>" + w + "</li></ul>"
  {
    var text := "* " + w;
    assert IsQuiet(text) && IsFree([], w);
    FormattedInStages(text);
    NothingToEscape(text);
    NoHeader(text);
    StarItemPasses(w, 0);
    assert PASSES[0..] == PASSES;
    QuietIsTidy(w);
    StarIsListed(w);
    ListTagsAreTidy(w);
    OnlyFormatted(text, missing, "<ul><li>" + w + "</li></ul>");
  }
}
