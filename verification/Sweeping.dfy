/** One pass of an emphasis or link rule, read off the text that is still to come. */
module Sweeping {
  import opened Common
  import opened JsText
  import opened Rules
  import opened Rewriting

  /** Emphasis by `n` times the same mark, or a link: a rule whose matches depend on nothing before them. */
  predicate Local(r: Rule) {
    r.Link? || (r.Paired? && r.mark != "")
  }

  /** The character every match of the rule begins with. */
  function Head(r: Rule): char
    requires Local(r)
  {
    if r.Link? then '[' else r.mark[0]
  }

  // ---------- matches, told from the text ----------

  /** `mark(.*?)mark` matches up to `e`. */
  predicate Pairs(s: string, i: nat, mark: string, e: nat) {
    var n := |mark|;
    && Occurs(s, mark, i) && i + 2 * n <= e && Occurs(s, mark, e - n)
    && forall j :: i + n <= j < e - n ==> !Occurs(s, mark, j) && !IsLineEnd(s[j])
  }

  /** The whole match: where it ends, and the marks traded for the tags. */
  lemma PairedIs(mark: string, open: string, close: string, s: string, i: nat, e: nat)
    requires mark != ""
    ensures PairedAt(s, i, mark, open, close).Some? && PairedAt(s, i, mark, open, close).value.end == e
            <==> Pairs(s, i, mark, e)
    ensures Pairs(s, i, mark, e) ==>
              PairedAt(s, i, mark, open, close) == Some(Hit(i, e, open + s[i + |mark|..e - |mark|] + close))
  {
    PairedIsNearest(mark, open, close, s, i, e);
  }

  /** `\[([^\]]+)\]\(([^)]+)\)` matches with its caption up to `p` and its address up to `q`. */
  predicate Links(s: string, i: nat, p: nat, q: nat) {
    && i + 1 < p && p + 2 < q < |s| && s[i] == '[' && s[p] == ']' && s[p + 1] == '(' && s[q] == ')'
    && (forall j :: i < j < p ==> s[j] != ']')
    && (forall j :: p + 1 < j < q ==> s[j] != ')')
  }

  /** A link is a caption without `]` and an address without `)`, neither empty. */
  lemma LinkIsUnbroken(s: string, i: nat, p: nat, q: nat)
    requires i < |s|
    ensures Links(s, i, p, q) ==> LinkAt(s, i) == Some(Hit(i, q + 1, LinkText(s[p + 2..q], s[i + 1..p])))
    ensures LinkAt(s, i).Some? ==> exists x, y :: Links(s, i, x, y)
  {
    if s[i] == '[' {
      var x := Run(s, i + 1, c => c != ']');
      if Links(s, i, p, q) {
        assert x == p;
        assert Run(s, p + 2, c => c != ')') == q;
      }
      if LinkAt(s, i).Some? {
        var y := Run(s, x + 2, c => c != ')');
        assert Links(s, i, x, y);
      }
    }
  }

  // ---------- a match depends only on the text behind it ----------

  lemma OccursBehind(s: string, word: string, i: nat, j: nat)
    requires i <= j <= |s|
    ensures Occurs(s, word, j) <==> Occurs(s[i..], word, j - i)
  {
    if j + |word| <= |s| {
      assert s[j..j + |word|] == s[i..][j - i..j - i + |word|];
    }
  }

  lemma PairsBehind(s: string, i: nat, mark: string, e: nat)
    requires i <= e <= |s| && mark != ""
    ensures Pairs(s, i, mark, e) <==> Pairs(s[i..], 0, mark, e - i)
  {
    forall j | i <= j <= |s|
      ensures Occurs(s, mark, j) <==> Occurs(s[i..], mark, j - i)
    {
      OccursBehind(s, mark, i, j);
    }
    var n, t := |mark|, s[i..];
    if i + 2 * n <= e {
      assert (forall j :: i + n <= j < e - n ==> !Occurs(s, mark, j) && !IsLineEnd(s[j])) <==>
             (forall j :: n <= j < e - i - n ==> !Occurs(t, mark, j) && !IsLineEnd(t[j])) by {
        assert forall j :: n <= j < e - i - n ==> t[j] == s[i + j] && (Occurs(t, mark, j) <==> Occurs(s, mark, i + j));
      }
    }
  }

  lemma SliceBehind(s: string, i: nat, a: nat, b: nat)
    requires a <= b && i + b <= |s|
    ensures s[i..][a..b] == s[i + a..i + b]
  {
  }

  lemma PairedGives(mark: string, open: string, close: string, s: string, i: nat, e: nat, middle: string)
    requires mark != "" && Pairs(s, i, mark, e) && middle == s[i + |mark|..e - |mark|]
    ensures PairedAt(s, i, mark, open, close) == Some(Hit(i, e, open + middle + close))
  {
    PairedIs(mark, open, close, s, i, e);
  }

  lemma PairsMove(s: string, i: nat, mark: string, e: nat, t: string)
    requires mark != "" && i <= e <= |s| && Pairs(s, i, mark, e) && t == s[i..]
    ensures Pairs(t, 0, mark, e - i) && s[i + |mark|..e - |mark|] == t[|mark|..e - i - |mark|]
  {
    PairsBehind(s, i, mark, e);
    SliceBehind(s, i, |mark|, e - i - |mark|);
  }

  lemma PairedMoves(mark: string, open: string, close: string, s: string, i: nat, e: nat, t: string)
    requires mark != "" && i <= e <= |s| && Pairs(s, i, mark, e) && t == s[i..]
    ensures PairedAt(s, i, mark, open, close).Some? && PairedAt(t, 0, mark, open, close).Some?
    ensures PairedAt(s, i, mark, open, close) ==
            Some(Hit(i, e, PairedAt(t, 0, mark, open, close).value.out))
    ensures PairedAt(t, 0, mark, open, close).value.end == e - i && PairedAt(t, 0, mark, open, close).value.at == 0
  {
    var middle := s[i + |mark|..e - |mark|];
    PairsMove(s, i, mark, e, t);
    PairedGives(mark, open, close, s, i, e, middle);
    PairedGives(mark, open, close, t, 0, e - i, middle);
  }

  lemma PairHere(mark: string, open: string, close: string, s: string, i: nat, e: nat, t: string)
    requires mark != "" && i <= e <= |s| && t == s[i..] && Pairs(t, 0, mark, e - i)
    ensures PairedAt(s, i, mark, open, close).Some?
  {
    PairsBehind(s, i, mark, e);
    PairedIs(mark, open, close, s, i, e);
  }

  lemma PairThere(mark: string, open: string, close: string, t: string)
    requires mark != "" && PairedAt(t, 0, mark, open, close).Some?
    ensures PairedAt(t, 0, mark, open, close).value.end <= |t|
    ensures Pairs(t, 0, mark, PairedAt(t, 0, mark, open, close).value.end)
  {
    PairedIs(mark, open, close, t, 0, PairedAt(t, 0, mark, open, close).value.end);
  }

  lemma PairedBehind(mark: string, open: string, close: string, s: string, i: nat)
    requires mark != "" && i < |s|
    ensures PairedAt(s, i, mark, open, close) ==
            match PairedAt(s[i..], 0, mark, open, close)
            case None => None
            case Some(h) => Some(Hit(i, i + h.end, h.out))
  {
    var here := PairedAt(s, i, mark, open, close);
    if here.Some? {
      PairedIs(mark, open, close, s, i, here.value.end);
      PairedMoves(mark, open, close, s, i, here.value.end, s[i..]);
    } else if PairedAt(s[i..], 0, mark, open, close).Some? {
      PairThere(mark, open, close, s[i..]);
      PairHere(mark, open, close, s, i, i + PairedAt(s[i..], 0, mark, open, close).value.end, s[i..]);
    }
  }

  lemma LinksBehind(s: string, i: nat, p: nat, q: nat)
    requires i <= p && i <= q
    ensures i <= |s| ==> (Links(s, i, p, q) <==> Links(s[i..], 0, p - i, q - i))
  {
  }

  lemma LinkMoves(s: string, i: nat, p: nat, q: nat)
    requires Links(s, i, p, q)
    ensures
      var out := LinkText(s[p + 2..q], s[i + 1..p]);
      LinkAt(s, i) == Some(Hit(i, q + 1, out)) && LinkAt(s[i..], 0) == Some(Hit(0, q + 1 - i, out))
  {
    var t := s[i..];
    LinkIsUnbroken(s, i, p, q);
    LinksBehind(s, i, p, q);
    LinkIsUnbroken(t, 0, p - i, q - i);
    SliceBehind(s, i, p - i + 2, q - i);
    SliceBehind(s, i, 1, p - i);
  }

  lemma LinkBehind(s: string, i: nat)
    requires i < |s|
    ensures LinkAt(s, i) ==
            match LinkAt(s[i..], 0)
            case None => None
            case Some(h) => Some(Hit(i, i + h.end, h.out))
  {
    LinkIsUnbroken(s, i, 0, 0);
    LinkIsUnbroken(s[i..], 0, 0, 0);
    if LinkAt(s, i).Some? {
      var p: nat, q: nat :| Links(s, i, p, q);
      LinkMoves(s, i, p, q);
    }
  }

  lemma MatchBehind(r: Rule, s: string, i: nat, k: nat)
    requires Local(r) && i < |s|
    ensures MatchAt(r, s, i, k) ==
            match MatchAt(r, s[i..], 0, 0)
            case None => None
            case Some(h) => Some(Hit(i, i + h.end, h.out))
  {
    if r.Link? {
      LinkBehind(s, i);
    } else {
      PairedBehind(r.mark, r.open, r.close, s, i);
    }
  }

  /** What the rule makes of a text, from its front. */
  function Swept(r: Rule, t: string): string {
    if t == "" then ""
    else match MatchAt(r, t, 0, 0)
      case None => [t[0]] + Swept(r, t[1..])
      case Some(h) => h.out + Swept(r, t[h.end..])
  }

  lemma Keeps(r: Rule, s: string, i: nat, k: nat)
    requires i < |s| && MatchAt(r, s, i, k) == None
    ensures Rewrite(r, s, i, k) == [s[i]] + Rewrite(r, s, i + 1, k)
  {
    match Next(r, s, i + 1, k)
    case None => assert s[i..] == [s[i]] + s[i + 1..];
    case Some(h) =>
      assert s[i..h.at] == [s[i]] + s[i + 1..h.at];
      Associate([s[i]], s[i + 1..h.at], h.out);
      Associate([s[i]], s[i + 1..h.at] + h.out, Rewrite(r, s, h.end, k + 1));
  }

  lemma Trades(r: Rule, s: string, i: nat, k: nat, e: nat, out: string)
    requires i < e <= |s| && MatchAt(r, s, i, k) == Some(Hit(i, e, out))
    ensures Rewrite(r, s, i, k) == out + Rewrite(r, s, e, k + 1)
  {
    assert s[i..i] + out == out;
  }

  lemma SweptKeeps(r: Rule, t: string)
    requires t != "" && MatchAt(r, t, 0, 0) == None
    ensures Swept(r, t) == [t[0]] + Swept(r, t[1..])
  {
  }

  lemma SweptTrades(r: Rule, t: string, h: Hit, rest: string)
    requires t != "" && MatchAt(r, t, 0, 0) == Some(h) && rest == t[h.end..]
    ensures Swept(r, t) == h.out + Swept(r, rest)
  {
  }

  lemma Behind(s: string, i: nat, j: nat)
    requires i + j <= |s|
    ensures s[i..][j..] == s[i + j..]
  {
  }

  lemma SweptKeepsBehind(r: Rule, s: string, i: nat, k: nat)
    requires Local(r) && i < |s| && MatchAt(r, s, i, k) == None
    ensures Swept(r, s[i..]) == [s[i]] + Swept(r, s[i + 1..])
  {
    var t, rest := s[i..], s[i + 1..];
    MatchBehind(r, s, i, k);
    Behind(s, i, 1);
    assert t[0] == s[i] && t[1..] == rest;
    SweptKeeps(r, t);
  }

  lemma MatchOnward(r: Rule, s: string, i: nat, k: nat, h: Hit)
    requires Local(r) && i < |s| && MatchAt(r, s, i, k) == Some(h)
    ensures h.at == i < h.end <= |s| && MatchAt(r, s[i..], 0, 0) == Some(Hit(0, h.end - i, h.out))
  {
    MatchBehind(r, s, i, k);
  }

  lemma SweptTradesBehind(r: Rule, s: string, i: nat, k: nat, h: Hit)
    requires Local(r) && i < |s| && MatchAt(r, s, i, k) == Some(h)
    ensures h.at == i && Swept(r, s[i..]) == h.out + Swept(r, s[h.end..])
  {
    MatchOnward(r, s, i, k, h);
    Behind(s, i, h.end - i);
    SweptTrades(r, s[i..], Hit(0, h.end - i, h.out), s[h.end..]);
  }

  /** Rewriting from `i` on is sweeping what comes from there. */
  lemma {:induction false} RewriteIsSwept(r: Rule, s: string, i: nat, k: nat)
    requires Local(r) && i <= |s|
    ensures Rewrite(r, s, i, k) == Swept(r, s[i..])
    decreases |s| - i
  {
    if i < |s| {
      var h := MatchAt(r, s, i, k);
      if h == None {
        RewriteIsSwept(r, s, i + 1, k);
        Keeps(r, s, i, k);
        SweptKeepsBehind(r, s, i, k);
      } else {
        RewriteIsSwept(r, s, h.value.end, k + 1);
        SweptTradesBehind(r, s, i, k, h.value);
        Trades(r, s, i, k, h.value.end, h.value.out);
      }
    }
  }

  // ---------- from the front of a text ----------

  /** Text without the head of the rule stays. */
  lemma {:induction false} SweptText(r: Rule, a: string, rest: string)
    requires Local(r) && Head(r) !in a
    ensures Swept(r, a + rest) == a + Swept(r, rest)
  {
    if a == "" {
      assert a + rest == rest;
    } else {
      var t := a + rest;
      assert t[0] == a[0] && a[0] in a && t[1..] == a[1..] + rest;
      NoHead(r, t);
      SweptKeeps(r, t);
      SweptText(r, a[1..], rest);
      assert a == [a[0]] + a[1..];
      Associate([a[0]], a[1..], Swept(r, rest));
    }
  }

  lemma NoHead(r: Rule, t: string)
    requires Local(r) && t != "" && t[0] != Head(r)
    ensures MatchAt(r, t, 0, 0) == None
  {
  }

  /** `n` times the same character. */
  function Times(c: char, n: nat): (s: string)
    ensures |s| == n && forall i :: 0 <= i < n ==> s[i] == c
  {
    seq(n, _ => c)
  }

  lemma ShortRun(mark: string, c: char, n: nat, rest: string)
    requires n < |mark| && mark == Times(c, |mark|) && (rest != "" ==> rest[0] != c)
    ensures !Occurs(Times(c, n) + rest, mark, 0)
  {
    var t := Times(c, n) + rest;
    assert rest != "" ==> t[n] == rest[0];
  }

  /** A shorter run of the same mark stays, if it ends there. */
  lemma {:induction false} SweptRun(r: Rule, c: char, n: nat, rest: string)
    requires r.Paired? && n < |r.mark| && r.mark == Times(c, |r.mark|) && (rest != "" ==> rest[0] != c)
    ensures Swept(r, Times(c, n) + rest) == Times(c, n) + Swept(r, rest)
  {
    if n == 0 {
      assert Times(c, 0) + rest == rest && Times(c, 0) + Swept(r, rest) == Swept(r, rest);
    } else {
      var t := Times(c, n) + rest;
      assert t[1..] == Times(c, n - 1) + rest && t[0] == c;
      ShortRun(r.mark, c, n, rest);
      SweptKeeps(r, t);
      SweptRun(r, c, n - 1, rest);
      assert Times(c, n) == [c] + Times(c, n - 1);
      Associate([c], Times(c, n - 1), Swept(r, rest));
    }
  }

  /** Text between two equal marks, on one line and without the mark's character. */
  lemma PairAhead(mark: string, body: string, rest: string)
    requires mark != "" && mark[0] !in body && forall i :: 0 <= i < |body| ==> !IsLineEnd(body[i])
    ensures
      var t := mark + (body + (mark + rest));
      Pairs(t, 0, mark, 2 * |mark| + |body|) && t[|mark|..|mark| + |body|] == body
      && t[2 * |mark| + |body|..] == rest
  {
    var t, n, e := mark + (body + (mark + rest)), |mark|, 2 * |mark| + |body|;
    assert t[..n] == mark && t[e - n..e] == mark;
    forall j | n <= j < e - n
      ensures !Occurs(t, mark, j) && !IsLineEnd(t[j])
    {
      assert t[j] == body[j - n] && body[j - n] in body;
    }
  }

  /** Such a text is wrapped in the rule's tags. */
  lemma SweptPair(r: Rule, body: string, rest: string)
    requires r.Paired? && r.mark != "" && r.mark[0] !in body && forall i :: 0 <= i < |body| ==> !IsLineEnd(body[i])
    ensures Swept(r, r.mark + (body + (r.mark + rest))) == r.open + body + r.close + Swept(r, rest)
  {
    var t, e := r.mark + (body + (r.mark + rest)), 2 * |r.mark| + |body|;
    PairAhead(r.mark, body, rest);
    PairedGives(r.mark, r.open, r.close, t, 0, e, body);
    SweptTrades(r, t, Hit(0, e, r.open + body + r.close), rest);
  }

  lemma LinkAhead(caption: string, address: string, rest: string)
    requires caption != "" && ']' !in caption && address != "" && ')' !in address
    ensures
      var t := "[" + (caption + ("](" + (address + (")" + rest))));
      var p, q := 1 + |caption|, 3 + |caption| + |address|;
      && Links(t, 0, p, q) && t[1..p] == caption && t[p + 2..q] == address && t[q + 1..] == rest
  {
    var t := "[" + (caption + ("](" + (address + (")" + rest))));
    var p, q := 1 + |caption|, 3 + |caption| + |address|;
    assert forall j :: 0 < j < p ==> t[j] == caption[j - 1] && caption[j - 1] in caption;
    assert forall j :: p + 1 < j < q ==> t[j] == address[j - p - 2] && address[j - p - 2] in address;
  }

  /** A link becomes an anchor. */
  lemma SweptLink(caption: string, address: string, rest: string)
    requires caption != "" && ']' !in caption && address != "" && ')' !in address
    ensures Swept(Link, "[" + (caption + ("](" + (address + (")" + rest))))) ==
            LinkText(address, caption) + Swept(Link, rest)
  {
    var t := "[" + (caption + ("](" + (address + (")" + rest))));
    var p, q := 1 + |caption|, 3 + |caption| + |address|;
    LinkAhead(caption, address, rest);
    LinkIsUnbroken(t, 0, p, q);
    SweptTrades(Link, t, Hit(0, q + 1, LinkText(address, caption)), rest);
  }
}
