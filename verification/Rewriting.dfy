/** `replace` with the `g` flag: every match of a rule, from left to right. */
module Rewriting {
  import opened Common
  import opened Marks
  import opened Rules

  /** The first match at or after `i`. */
  function Next(r: Rule, s: string, i: nat, k: nat): (h: Option<Hit>)
    ensures InRange(s, i, h)
    decreases |s| - i
  {
    if i >= |s| then None
    else match MatchAt(r, s, i, k)
      case Some(h) => Some(h)
      case None => Next(r, s, i + 1, k)
  }

  /** The text from `i` on, rewritten; `k` matches were replaced before. */
  function Rewrite(r: Rule, s: string, i: nat, k: nat): string
    requires i <= |s|
    decreases |s| - i
  {
    match Next(r, s, i, k)
    case None => s[i..]
    case Some(h) => s[i..h.at] + h.out + Rewrite(r, s, h.end, k + 1)
  }

  /** The placeholders that the rewriting takes out, and those it puts in. */
  function AllLost(r: Rule, s: string, i: nat, k: nat): seq<string>
    requires i <= |s|
    decreases |s| - i
  {
    match Next(r, s, i, k)
    case None => []
    case Some(h) => Lost(r, s, h) + AllLost(r, s, h.end, k + 1)
  }

  function AllGained(r: Rule, s: string, i: nat, k: nat): seq<string>
    requires i <= |s|
    decreases |s| - i
  {
    match Next(r, s, i, k)
    case None => []
    case Some(h) => Gained(r, k) + AllGained(r, s, h.end, k + 1)
  }

  lemma {:induction false} NextIsFair(r: Rule, s: string, i: nat, k: nat)
    requires Sound(s) && Proper(r) && Next(r, s, i, k).Some?
    ensures Fair(r, s, i, k, Next(r, s, i, k).value)
    decreases |s| - i
  {
    match MatchAt(r, s, i, k)
    case Some(_) => MatchIsFair(r, s, i, k);
    case None => NextIsFair(r, s, i + 1, k);
  }

  lemma ChunkIsSound(chunk: string, out: string, rest: string)
    requires Sound(chunk) && Sound(out) && Sound(rest)
    requires out != "" && !IsNameChar(out[0]) && !IsNameChar(Last(out))
    ensures Sound(chunk + out + rest) && Names(chunk + out + rest) == Names(chunk) + Names(out) + Names(rest)
  {
    AppendIsSound(chunk, out);
    AppendIsSound(chunk + out, rest);
  }

  /** Adding up: `a` stays, `b` becomes `b1`, `c` becomes `c1`. */
  lemma Balance<T>(a: multiset<T>, b: multiset<T>, c: multiset<T>, b1: multiset<T>, c1: multiset<T>,
                   lost: multiset<T>, losses: multiset<T>, gained: multiset<T>, gains: multiset<T>)
    requires b1 + lost == b + gained && c1 + losses == c + gains
    ensures (a + b1 + c1) + (lost + losses) == (a + (b + c)) + (gained + gains)
  {
    assert (a + b1 + c1) + (lost + losses) == a + (b1 + lost) + (c1 + losses);
    assert (a + (b + c)) + (gained + gains) == a + (b + gained) + (c + gains);
  }

  lemma Together<T>(a: seq<T>, b: seq<T>, c: seq<T>)
    ensures multiset(a + b + c) == multiset(a) + multiset(b) + multiset(c)
    ensures multiset(a + (b + c)) == multiset(a) + (multiset(b) + multiset(c))
  {
  }

  ghost predicate Conserved(r: Rule, s: string, i: nat, k: nat)
    requires i <= |s|
  {
    && Sound(Rewrite(r, s, i, k))
    && multiset(Names(Rewrite(r, s, i, k))) + multiset(AllLost(r, s, i, k)) ==
       multiset(Names(s[i..])) + multiset(AllGained(r, s, i, k))
  }

  lemma TailNames(s: string, i: nat, at: nat, end: nat)
    requires Sound(s) && i <= at <= end <= |s| && Cut(s, i) && Cut(s, at) && Cut(s, end)
    ensures Sound(s[i..at]) && Names(s[i..]) == Names(s[i..at]) + (Names(s[at..end]) + Names(s[end..]))
  {
    assert s[i..|s|] == s[i..] && s[at..|s|] == s[at..] && s[end..|s|] == s[end..];
    NamesSplit(s, i, at, |s|);
    NamesSplit(s, at, end, |s|);
  }

  /** One hit, given what the rest of the text does. */
  lemma HitAdds(chunk: string, hit: string, tail: string, out: string, rest: string, total: seq<string>,
                lost: seq<string>, losses: seq<string>, gained: seq<string>, gains: seq<string>)
    requires Sound(chunk) && Sound(out) && Sound(rest)
    requires out != "" && !IsNameChar(out[0]) && !IsNameChar(Last(out))
    requires total == Names(chunk) + (Names(hit) + Names(tail))
    requires multiset(Names(out)) + multiset(lost) == multiset(Names(hit)) + multiset(gained)
    requires multiset(Names(rest)) + multiset(losses) == multiset(Names(tail)) + multiset(gains)
    ensures Sound(chunk + out + rest)
    ensures multiset(Names(chunk + out + rest)) + multiset(lost + losses) == multiset(total) + multiset(gained + gains)
  {
    ChunkIsSound(chunk, out, rest);
    Together(Names(chunk), Names(out), Names(rest));
    Together(Names(chunk), Names(hit), Names(tail));
    Balance(multiset(Names(chunk)), multiset(Names(hit)), multiset(Names(tail)),
            multiset(Names(out)), multiset(Names(rest)),
            multiset(lost), multiset(losses), multiset(gained), multiset(gains));
  }

  lemma HitConserves(r: Rule, s: string, i: nat, k: nat, h: Hit)
    requires Sound(s) && Cut(s, i) && Next(r, s, i, k) == Some(h) && Fair(r, s, i, k, h)
    requires Conserved(r, s, h.end, k + 1)
    ensures Conserved(r, s, i, k)
  {
    TailNames(s, i, h.at, h.end);
    HitAdds(s[i..h.at], s[h.at..h.end], s[h.end..], h.out, Rewrite(r, s, h.end, k + 1), Names(s[i..]),
            Lost(r, s, h), AllLost(r, s, h.end, k + 1), Gained(r, k), AllGained(r, s, h.end, k + 1));
  }

  /** A rewriting keeps a sound text sound and conserves its placeholders, but for those it trades itself. */
  lemma {:induction false} RewriteConserves(r: Rule, s: string, i: nat, k: nat)
    requires Sound(s) && Proper(r) && Cut(s, i)
    ensures Conserved(r, s, i, k)
    decreases |s| - i
  {
    match Next(r, s, i, k)
    case None =>
      SliceIsSound(s, i, |s|);
      assert s[i..|s|] == s[i..];
    case Some(h) =>
      NextIsFair(r, s, i, k);
      RewriteConserves(r, s, h.end, k + 1);
      HitConserves(r, s, i, k, h);
  }
}
