/** Putting stored text back for placeholders: one kind at a time, by scanning, and all at once, by reading. */
module Restoring {
  import opened Common
  import opened Marks
  import opened Rules
  import opened Decimal

  // ---------- scanning: \x00WORD(\d+)\x00 ----------

  /** The number of the placeholder of `kind` that `t` begins with, and its length. */
  function TagAt(kind: Kind, t: string): (r: Option<(nat, nat)>)
    ensures r.Some? ==> 0 < r.value.1 <= |t|
  {
    var w := Word(kind);
    var lo := 1 + |w|;
    if |t| <= lo || t[0] != NUL || t[1..lo] != w then None
    else
      var d := Run(t, lo, c => IsDigit(c));
      if d == lo || d == |t| || t[d] != NUL then None
      else Some((Value(Digits(t, lo, d)), d + 1))
  }

  function Digits(t: string, lo: nat, hi: nat): (r: string)
    requires lo <= hi <= |t| && forall i :: lo <= i < hi ==> IsDigit(t[i])
    ensures r == t[lo..hi] && forall c :: c in r ==> IsDigit(c)
  {
    assert forall j :: 0 <= j < hi - lo ==> t[lo..hi][j] == t[lo + j];
    t[lo..hi]
  }

  /** Every placeholder of `kind` that a scan from left to right finds is replaced. */
  function Restore(kind: Kind, t: string, stored: nat -> string): string {
    if t == "" then ""
    else match TagAt(kind, t)
      case Some((k, n)) => stored(k) + Restore(kind, t[n..], stored)
      case None => [t[0]] + Restore(kind, t[1..], stored)
  }

  /** The numbers such a scan looks up, in order. */
  function Lookups(kind: Kind, t: string): seq<nat> {
    if t == "" then []
    else match TagAt(kind, t)
      case Some((k, n)) => [k] + Lookups(kind, t[n..])
      case None => Lookups(kind, t[1..])
  }

  /** Nothing else about the stored pieces matters. */
  lemma {:induction false} RestoreUsesLookups(kind: Kind, t: string, f: nat -> string, g: nat -> string)
    requires forall k :: k in Lookups(kind, t) ==> f(k) == g(k)
    ensures Restore(kind, t, f) == Restore(kind, t, g)
    decreases |t|
  {
    if t != "" {
      match TagAt(kind, t)
      case Some((_, n)) => RestoreUsesLookups(kind, t[n..], f, g);
      case None => RestoreUsesLookups(kind, t[1..], f, g);
    }
  }

  // ---------- reading ----------

  /** The number in a name of `kind`. */
  function Number(kind: Kind, name: string): Option<nat> {
    var w := Word(kind);
    if |name| > |w| && name[..|w|] == w && (forall i :: |w| <= i < |name| ==> IsDigit(name[i]))
    then Some(Value(Digits(name, |w|, |name|)))
    else None
  }

  /** The text up to the first placeholder, its name, and what follows it. */
  function Split(t: string): (r: Option<(string, string, string)>)
    ensures r.Some? ==> |r.value.2| < |t|
  {
    var p := Run(t, 0, c => c != NUL);
    if p == |t| then None
    else
      var q := Run(t, p + 1, c => c != NUL);
      if q == |t| then None else Some((t[..p], t[p + 1..q], t[q + 1..]))
  }

  /** Every placeholder, whatever its kind, is replaced by what `f` says for its name. */
  function Substitute(t: string, f: string -> string): string
    decreases |t|
  {
    match Split(t)
    case None => t
    case Some((text, name, rest)) => text + f(name) + Substitute(rest, f)
  }

  /** `stored` for the names of `kind`; other placeholders stay. */
  function Only(kind: Kind, stored: nat -> string): string -> string {
    (name: string) => match Number(kind, name) case Some(k) => stored(k) case None => Bracket(name)
  }

  // ---------- names and numbers ----------

  lemma NumberOfName(kind: Kind, k: nat)
    ensures Number(kind, NameOf(kind, k)) == Some(k)
  {
    var w, d, n := Word(kind), Show(k), NameOf(kind, k);
    forall i | |w| <= i < |n|
      ensures IsDigit(n[i])
    {
      assert n[i] == d[i - |w|] && d[i - |w|] in d;
    }
    assert n[..|w|] == w && n[|w|..|n|] == d;
    ValueOfShow(k);
  }

  lemma WordsDiffer(a: Kind, b: Kind)
    requires a != b
    ensures Word(a)[0] != Word(b)[0]
  {
  }

  lemma NumberOfOtherName(kind: Kind, other: Kind, k: nat)
    requires kind != other
    ensures Number(kind, NameOf(other, k)) == None
  {
    var w, n := Word(kind), NameOf(other, k);
    WordsDiffer(kind, other);
    assert n[0] == Word(other)[0];
    assert |n| > |w| ==> n[..|w|][0] == n[0];
  }

  // ---------- a sound text, one placeholder at a time ----------

  lemma BracketReads(name: string)
    requires NUL !in name
    ensures Read(Bracket(name)) == Reading([name], None)
  {
    OpenTagReads(name);
    ReadSnoc([NUL] + name, NUL);
  }

  lemma UnclosedIsOdd(text: string, name: string)
    requires NUL !in text && NUL !in name
    ensures !Even(text + [NUL] + name)
  {
    NulFreeReads(text);
    OpenTagReads(name);
    ReadAppend(text, [NUL] + name);
    assert text + [NUL] + name == text + ([NUL] + name);
  }

  lemma Places(t: string) returns (p: nat, q: nat)
    requires Sound(t) && NUL in t
    ensures p < q < |t| && t[p] == NUL && t[q] == NUL && NUL !in t[..p] && NUL !in t[p + 1..q]
  {
    p := Run(t, 0, c => c != NUL);
    q := Run(t, p + 1, c => c != NUL);
    assert NUL !in t[..p] && NUL !in t[p + 1..q];
    if q == |t| {
      assert t == t[..p] + [NUL] + t[p + 1..q];
      UnclosedIsOdd(t[..p], t[p + 1..q]);
    }
  }

  lemma LeadReads(text: string, name: string, rest: string)
    requires NUL !in text && NUL !in name
    ensures Read(text + Bracket(name)) == Reading([name], None)
    ensures Read(text + Bracket(name) + rest) == Reading([name] + Names(rest), Read(rest).open)
  {
    NulFreeReads(text);
    BracketReads(name);
    ReadAppend(text, Bracket(name));
    ReadAppend(text + Bracket(name), rest);
  }

  lemma PartsOf(t: string, p: nat, q: nat)
    requires p < q < |t| && t[p] == NUL && t[q] == NUL
    ensures t == t[..p] + Bracket(t[p + 1..q]) + t[q + 1..]
    ensures t[..q + 1] == t[..p] + Bracket(t[p + 1..q])
    ensures t[0..p] == t[..p] && t[q + 1..|t|] == t[q + 1..]
  {
  }

  lemma FirstNameIsName(t: string, name: string, rest: string)
    requires Sound(t) && Names(t) == [name] + Names(rest)
    ensures AllNameChars(name) && forall i :: 0 <= i < |Names(rest)| ==> AllNameChars(Names(rest)[i])
  {
    assert Names(t)[0] == name;
    assert forall i :: 0 <= i < |Names(rest)| ==> Names(t)[i + 1] == Names(rest)[i];
  }

  /** A sound text with a NUL in it is text, a placeholder and the rest. */
  lemma LeadIsSound(text: string, name: string, rest: string)
    requires NUL !in text && NUL !in name && Sound(text + Bracket(name) + rest)
    ensures Sound(text) && AllNameChars(name) && Sound(rest)
    ensures Names(text + Bracket(name) + rest) == [name] + Names(rest)
  {
    NulFreeReads(text);
    LeadReads(text, name, rest);
    FirstNameIsName(text + Bracket(name) + rest, name, rest);
  }

  // ---------- scanning finds what reading finds ----------

  lemma RestoreStep(kind: Kind, c: char, rest: string, stored: nat -> string)
    requires TagAt(kind, [c] + rest).None?
    ensures Restore(kind, [c] + rest, stored) == [c] + Restore(kind, rest, stored)
  {
    assert ([c] + rest)[0] == c && ([c] + rest)[1..] == rest;
  }

  lemma {:induction false} RestoreCopies(kind: Kind, text: string, rest: string, stored: nat -> string)
    requires NUL !in text
    ensures Restore(kind, text + rest, stored) == text + Restore(kind, rest, stored)
  {
    if text == "" {
      assert text + rest == rest;
      assert "" + Restore(kind, rest, stored) == Restore(kind, rest, stored);
    } else {
      var c, more := text[0], text[1..];
      assert c in text && text == [c] + more;
      RestoreCopies(kind, more, rest, stored);
      RestoreStep(kind, c, more + rest, stored);
      Associate([c], more, rest);
      Associate([c], more, Restore(kind, rest, stored));
    }
  }

  /** A text without a NUL is restored as it is. */
  lemma NulFreeRestores(kind: Kind, s: string, stored: nat -> string)
    requires NUL !in s
    ensures Restore(kind, s, stored) == s
  {
    RestoreCopies(kind, s, "", stored);
    assert s + "" == s;
  }

  lemma OpeningText(name: string, rest: string, n: nat)
    requires n <= |name|
    ensures
      var t := Bracket(name) + rest;
      && t[0] == NUL && t[1..1 + n] == name[..n] && t[|name| + 1] == NUL
      && forall i :: 0 <= i < |name| ==> t[i + 1] == name[i]
  {
  }

  lemma DigitsRun(name: string, rest: string, n: nat)
    requires n <= |name| && forall i :: n <= i < |name| ==> IsDigit(name[i])
    ensures Run(Bracket(name) + rest, 1 + n, c => IsDigit(c)) == |name| + 1
    ensures (Bracket(name) + rest)[1 + n..|name| + 1] == name[n..|name|]
  {
    var t := Bracket(name) + rest;
    OpeningText(name, rest, n);
    assert forall i :: 1 + n <= i < |name| + 1 ==> t[i] == name[i - 1] && IsDigit(t[i]);
  }

  lemma TagShape(kind: Kind, t: string, digits: string, d: nat)
    requires
      var lo := 1 + |Word(kind)|;
      lo < d < |t| && t[0] == NUL && t[1..lo] == Word(kind) && t[d] == NUL
      && Run(t, lo, c => IsDigit(c)) == d && t[lo..d] == digits
    requires forall c :: c in digits ==> IsDigit(c)
    ensures TagAt(kind, t) == Some((Value(digits), d + 1))
  {
  }

  /** At an opening NUL the scan agrees with the name. */
  lemma TagAtNumber(kind: Kind, name: string, rest: string)
    requires Number(kind, name).Some?
    ensures TagAt(kind, Bracket(name) + rest) == Some((Number(kind, name).value, |name| + 2))
  {
    var w := Word(kind);
    OpeningText(name, rest, |w|);
    DigitsRun(name, rest, |w|);
    TagShape(kind, Bracket(name) + rest, Digits(name, |w|, |name|), |name| + 1);
  }

  lemma DigitsStop(name: string, rest: string, n: nat) returns (d: nat)
    requires NUL !in name && n < |name| && exists i :: n <= i < |name| && !IsDigit(name[i])
    ensures d == Run(Bracket(name) + rest, 1 + n, c => IsDigit(c))
    ensures d < |Bracket(name) + rest| && (Bracket(name) + rest)[d] != NUL
  {
    var t := Bracket(name) + rest;
    var i :| n <= i < |name| && !IsDigit(name[i]);
    OpeningText(name, rest, n);
    d := Run(t, 1 + n, c => IsDigit(c));
    assert !IsDigit(t[i + 1]);
    assert d <= |name| && t[d] == name[d - 1] && name[d - 1] in name;
  }

  lemma WordDiffers(kind: Kind, name: string, rest: string)
    requires !(Word(kind) <= name)
    requires NUL !in Word(kind)
    ensures TagAt(kind, Bracket(name) + rest) == None
  {
    var t, w := Bracket(name) + rest, Word(kind);
    if |name| < |w| {
      OpeningText(name, rest, |name|);
      assert |t| > 1 + |w| ==> t[1..1 + |w|][|name|] == NUL;
    } else {
      OpeningText(name, rest, |w|);
    }
  }

  lemma TagAtOther(kind: Kind, name: string, rest: string)
    requires NUL !in name && Number(kind, name).None?
    ensures TagAt(kind, Bracket(name) + rest) == None
  {
    var w := Word(kind);
    if w <= name {
      if |name| > |w| {
        var d := DigitsStop(name, rest, |w|);
      } else {
        OpeningText(name, rest, |w|);
      }
    } else {
      WordDiffers(kind, name, rest);
    }
  }

  lemma RestoreTag(kind: Kind, tag: string, rest: string, k: nat, stored: nat -> string)
    requires tag != "" && TagAt(kind, tag + rest) == Some((k, |tag|))
    ensures Restore(kind, tag + rest, stored) == stored(k) + Restore(kind, rest, stored)
  {
    assert (tag + rest)[|tag|..] == rest;
  }

  lemma RestoreKept(kind: Kind, name: string, rest: string, stored: nat -> string)
    requires NUL !in name && TagAt(kind, Bracket(name) + rest) == None && TagAt(kind, [NUL] + rest) == None
    ensures Restore(kind, Bracket(name) + rest, stored) == Bracket(name) + Restore(kind, rest, stored)
  {
    var after := Restore(kind, rest, stored);
    BracketText(name, rest);
    RestoreStep(kind, NUL, name + ([NUL] + rest), stored);
    RestoreCopies(kind, name, [NUL] + rest, stored);
    RestoreStep(kind, NUL, rest, stored);
    BracketText(name, after);
  }

  lemma BracketText(name: string, rest: string)
    ensures Bracket(name) + rest == [NUL] + (name + ([NUL] + rest))
  {
  }

  /** The closing NUL of a placeholder of another kind opens what looks like one of `kind`. */
  predicate Misled(kind: Kind, name: string, rest: string) {
    Number(kind, name).None? && TagAt(kind, [NUL] + rest).Some?
  }

  /** One placeholder, whichever way it is treated. */
  lemma RestoreLead(kind: Kind, text: string, name: string, rest: string, stored: nat -> string)
    requires NUL !in text && NUL !in name && !Misled(kind, name, rest)
    ensures Restore(kind, text + Bracket(name) + rest, stored) ==
            text + Only(kind, stored)(name) + Restore(kind, rest, stored)
  {
    var after := Restore(kind, rest, stored);
    Associate(text, Bracket(name), rest);
    RestoreCopies(kind, text, Bracket(name) + rest, stored);
    match Number(kind, name) {
      case Some(k) =>
        TagAtNumber(kind, name, rest);
        RestoreTag(kind, Bracket(name), rest, k, stored);
      case None =>
        TagAtOther(kind, name, rest);
        RestoreKept(kind, name, rest, stored);
    }
    Associate(text, Only(kind, stored)(name), after);
  }

  lemma LeadRuns(text: string, name: string, rest: string)
    requires NUL !in text && NUL !in name
    ensures
      var t, p, q := text + Bracket(name) + rest, |text|, |text| + 1 + |name|;
      q < |t| && Run(t, 0, c => c != NUL) == p && Run(t, p + 1, c => c != NUL) == q
  {
    var t, p, q := text + Bracket(name) + rest, |text|, |text| + 1 + |name|;
    assert t[p] == NUL && t[q] == NUL;
    assert forall i :: 0 <= i < p ==> t[i] == text[i];
    assert forall i :: p + 1 <= i < q ==> t[i] == name[i - p - 1];
  }

  lemma LeadParts(text: string, name: string, rest: string)
    ensures
      var t, p, q := text + Bracket(name) + rest, |text|, |text| + 1 + |name|;
      t[..p] == text && t[p + 1..q] == name && t[q + 1..] == rest
  {
  }

  /** Why texts must not look like names: between two placeholders such a text is taken for one. */
  lemma TextMistakenForTag(kind: Kind, name: string, k: nat, next: string, rest: string, stored: nat -> string)
    requires NUL !in name && Number(kind, name).None?
    ensures Restore(kind, Bracket(name) + (NameOf(kind, k) + (Bracket(next) + rest)), stored) ==
            [NUL] + (name + (stored(k) + Restore(kind, next + ([NUL] + rest), stored)))
  {
    var text, after := NameOf(kind, k), next + ([NUL] + rest);
    NumberOfName(kind, k);
    NameOfIsName(kind, k);
    TagAtOther(kind, name, text + (Bracket(next) + rest));
    BracketText(name, text + (Bracket(next) + rest));
    RestoreStep(kind, NUL, name + ([NUL] + (text + (Bracket(next) + rest))), stored);
    RestoreCopies(kind, name, [NUL] + (text + (Bracket(next) + rest)), stored);
    BracketText(next, rest);
    BracketText(text, after);
    TagAtNumber(kind, text, after);
    RestoreTag(kind, Bracket(text), after, k, stored);
  }

  lemma SplitLead(text: string, name: string, rest: string)
    requires NUL !in text && NUL !in name
    ensures Split(text + Bracket(name) + rest) == Some((text, name, rest))
  {
    LeadRuns(text, name, rest);
    LeadParts(text, name, rest);
  }

  lemma SubstituteStep(t: string, text: string, name: string, rest: string, f: string -> string)
    requires Split(t) == Some((text, name, rest))
    ensures Substitute(t, f) == text + f(name) + Substitute(rest, f)
  {
  }

  lemma SubstituteLead(text: string, name: string, rest: string, f: string -> string)
    requires NUL !in text && NUL !in name
    ensures Substitute(text + Bracket(name) + rest, f) == text + f(name) + Substitute(rest, f)
  {
    SplitLead(text, name, rest);
    SubstituteStep(text + Bracket(name) + rest, text, name, rest, f);
  }

  lemma SubstituteBracket(name: string, f: string -> string)
    requires NUL !in name
    ensures Substitute(Bracket(name), f) == f(name)
  {
    SubstituteLead("", name, "", f);
    assert "" + Bracket(name) + "" == Bracket(name);
    assert "" + f(name) + Substitute("", f) == f(name);
  }

  lemma SubstituteNothing(t: string, f: string -> string)
    requires NUL !in t
    ensures Substitute(t, f) == t
  {
  }

  /** The parts of a sound text with a placeholder in it. */
  lemma Lead(t: string) returns (text: string, name: string, rest: string)
    requires Sound(t) && NUL in t
    ensures t == text + Bracket(name) + rest && NUL !in text && NUL !in name && |rest| < |t|
    ensures Sound(text) && AllNameChars(name) && Sound(rest)
    ensures Names(t) == [name] + Names(rest)
  {
    var p, q := Places(t);
    text, name, rest := t[..p], t[p + 1..q], t[q + 1..];
    PartsOf(t, p, q);
    LeadIsSound(text, name, rest);
  }

  /**
   Some placeholder of another kind is followed, up to the next one, by nothing but text that spells
   a name of `kind`: a scan for `kind` takes that text for a placeholder.
   */
  predicate Mistaken(kind: Kind, t: string)
    decreases |t|
  {
    match Split(t)
    case None => false
    case Some((_, name, rest)) => Misled(kind, name, rest) || Mistaken(kind, rest)
  }

  lemma MistakenStep(kind: Kind, t: string, text: string, name: string, rest: string)
    requires Split(t) == Some((text, name, rest))
    ensures Mistaken(kind, t) <==> Misled(kind, name, rest) || Mistaken(kind, rest)
  {
  }

  lemma MistakenLead(kind: Kind, text: string, name: string, rest: string)
    requires NUL !in text && NUL !in name
    ensures Mistaken(kind, text + Bracket(name) + rest) <==> Misled(kind, name, rest) || Mistaken(kind, rest)
  {
    SplitLead(text, name, rest);
    MistakenStep(kind, text + Bracket(name) + rest, text, name, rest);
  }

  /** What follows a placeholder misleads exactly if its text, up to the next NUL, is a name of the kind. */
  lemma MisledByName(kind: Kind, name: string, text: string, rest: string)
    requires NUL !in text
    ensures Misled(kind, name, text + [NUL] + rest) <==> Number(kind, name).None? && Number(kind, text).Some?
    ensures !Misled(kind, name, text)
  {
    assert [NUL] + (text + [NUL] + rest) == Bracket(text) + rest;
    if Number(kind, text).Some? {
      TagAtNumber(kind, text, rest);
    } else {
      TagAtOther(kind, text, rest);
    }
    NoTagWithoutNul(kind, text);
  }

  lemma NoTagWithoutNul(kind: Kind, text: string)
    requires NUL !in text
    ensures TagAt(kind, [NUL] + text) == None
  {
    var t := [NUL] + text;
    assert forall i :: 0 < i < |t| ==> t[i] in text;
  }

  /** If nothing is mistaken, a scan for one kind replaces exactly the placeholders of that kind. */
  lemma {:induction false} RestoreIsSubstitute(kind: Kind, t: string, stored: nat -> string)
    requires Sound(t) && !Mistaken(kind, t)
    ensures Restore(kind, t, stored) == Substitute(t, Only(kind, stored))
    decreases |t|
  {
    if NUL in t {
      var text, name, rest := Lead(t);
      MistakenLead(kind, text, name, rest);
      RestoreLead(kind, text, name, rest, stored);
      RestoreIsSubstitute(kind, rest, stored);
      SubstituteLead(text, name, rest, Only(kind, stored));
    } else {
      RestoreCopies(kind, t, "", stored);
      SubstituteNothing(t, Only(kind, stored));
      assert t + "" == t;
    }
  }

  /** What a scan makes of a placeholder that it is misled after. */
  lemma RestoreMisled(kind: Kind, text: string, name: string, rest: string, stored: nat -> string)
      returns (later: string)
    requires NUL !in text && NUL !in name && Misled(kind, name, rest)
    ensures exists k ::
      Restore(kind, text + Bracket(name) + rest, stored) == text + ([NUL] + (name + (stored(k) + later)))
  {
    var (k, n) := TagAt(kind, [NUL] + rest).value;
    later := Restore(kind, ([NUL] + rest)[n..], stored);
    Associate(text, Bracket(name), rest);
    RestoreCopies(kind, text, Bracket(name) + rest, stored);
    TagAtOther(kind, name, rest);
    BracketText(name, rest);
    RestoreStep(kind, NUL, name + ([NUL] + rest), stored);
    RestoreCopies(kind, name, [NUL] + rest, stored);
    assert Restore(kind, [NUL] + rest, stored) == stored(k) + later;
  }

  lemma NulAndElse(text: string, name: string, piece: string, later: string, rest: string)
    requires piece != "" && piece[0] != NUL
    ensures text + ([NUL] + (name + (piece + later))) != text + Bracket(name) + rest
  {
    var at := |text| + 1 + |name|;
    assert (text + ([NUL] + (name + (piece + later))))[at] == piece[0];
    assert (text + Bracket(name) + rest)[at] == NUL;
  }

  lemma SameFront(front: string, a: string, b: string)
    requires a != b
    ensures front + a != front + b
  {
    assert (front + a)[|front|..] == a && (front + b)[|front|..] == b;
  }

  /** A mistake shows in the result, whatever is stored, as long as no stored piece is empty or begins with a NUL. */
  lemma {:induction false} MistakeShows(kind: Kind, t: string, stored: nat -> string)
    requires Sound(t) && Mistaken(kind, t)
    requires forall k :: stored(k) != "" && stored(k)[0] != NUL
    ensures Restore(kind, t, stored) != Substitute(t, Only(kind, stored))
    decreases |t|
  {
    var text, name, rest := Lead(t);
    MistakenLead(kind, text, name, rest);
    SubstituteLead(text, name, rest, Only(kind, stored));
    if Misled(kind, name, rest) {
      var later := RestoreMisled(kind, text, name, rest, stored);
      var k :| Restore(kind, t, stored) == text + ([NUL] + (name + (stored(k) + later)));
      NulAndElse(text, name, stored(k), later, Substitute(rest, Only(kind, stored)));
    } else {
      RestoreLead(kind, text, name, rest, stored);
      MistakeShows(kind, rest, stored);
      SameFront(text + Only(kind, stored)(name), Restore(kind, rest, stored), Substitute(rest, Only(kind, stored)));
    }
  }

  /** Whatever is stored, the scan for `kind` replaces the placeholders of that kind and nothing else. */
  ghost predicate Restores(kind: Kind, t: string) {
    forall stored: nat -> string :: Restore(kind, t, stored) == Substitute(t, Only(kind, stored))
  }

  lemma RestoresWithoutMistake(kind: Kind, t: string)
    requires Sound(t) && !Mistaken(kind, t)
    ensures Restores(kind, t)
  {
    forall stored: nat -> string
      ensures Restore(kind, t, stored) == Substitute(t, Only(kind, stored))
    {
      RestoreIsSubstitute(kind, t, stored);
    }
  }

  lemma NotRestored(kind: Kind, t: string, stored: nat -> string)
    requires Restore(kind, t, stored) != Substitute(t, Only(kind, stored))
    ensures !Restores(kind, t)
  {
  }

  function AlwaysX(): nat -> string {
    (k: nat) => "X"
  }

  lemma MistakeBreaksRestoring(kind: Kind, t: string)
    requires Sound(t) && Mistaken(kind, t)
    ensures !Restores(kind, t)
  {
    MistakeShows(kind, t, AlwaysX());
    NotRestored(kind, t, AlwaysX());
  }

  /** The exact condition: a scan restores a sound text if and only if it mistakes nothing in it. */
  lemma RestoresUnlessMistaken(kind: Kind, t: string)
    requires Sound(t)
    ensures Restores(kind, t) <==> !Mistaken(kind, t)
  {
    if Mistaken(kind, t) {
      MistakeBreaksRestoring(kind, t);
    } else {
      RestoresWithoutMistake(kind, t);
    }
  }

  // ---------- what is looked up ----------

  /** The numbers of the names of one kind, in order. */
  function Numbers(kind: Kind, names: seq<string>): seq<nat> {
    if names == [] then []
    else (match Number(kind, names[0]) case Some(k) => [k] case None => []) + Numbers(kind, names[1..])
  }

  lemma {:induction false} LookupsSkip(kind: Kind, text: string, rest: string)
    requires NUL !in text
    ensures Lookups(kind, text + rest) == Lookups(kind, rest)
  {
    if text == "" {
      assert text + rest == rest;
    } else {
      assert text[0] in text && (text + rest)[0] == text[0] && (text + rest)[1..] == text[1..] + rest;
      LookupsSkip(kind, text[1..], rest);
    }
  }

  lemma LookupsStep(kind: Kind, c: char, rest: string)
    requires TagAt(kind, [c] + rest).None?
    ensures Lookups(kind, [c] + rest) == Lookups(kind, rest)
  {
    assert ([c] + rest)[1..] == rest;
  }

  lemma LookupsKept(kind: Kind, name: string, rest: string)
    requires NUL !in name && TagAt(kind, Bracket(name) + rest) == None && TagAt(kind, [NUL] + rest) == None
    ensures Lookups(kind, Bracket(name) + rest) == Lookups(kind, rest)
  {
    BracketText(name, rest);
    LookupsStep(kind, NUL, name + ([NUL] + rest));
    LookupsSkip(kind, name, [NUL] + rest);
    LookupsStep(kind, NUL, rest);
  }

  lemma LookupsTag(kind: Kind, tag: string, rest: string, k: nat)
    requires tag != "" && TagAt(kind, tag + rest) == Some((k, |tag|))
    ensures Lookups(kind, tag + rest) == [k] + Lookups(kind, rest)
  {
    assert (tag + rest)[|tag|..] == rest;
  }

  lemma LookupsLead(kind: Kind, text: string, name: string, rest: string)
    requires NUL !in text && NUL !in name && !Misled(kind, name, rest)
    ensures Lookups(kind, text + Bracket(name) + rest) ==
            (match Number(kind, name) case Some(k) => [k] case None => []) + Lookups(kind, rest)
  {
    Associate(text, Bracket(name), rest);
    LookupsSkip(kind, text, Bracket(name) + rest);
    match Number(kind, name) {
      case Some(k) =>
        TagAtNumber(kind, name, rest);
        LookupsTag(kind, Bracket(name), rest, k);
      case None =>
        TagAtOther(kind, name, rest);
        LookupsKept(kind, name, rest);
        assert [] + Lookups(kind, rest) == Lookups(kind, rest);
    }
  }

  /** If nothing is mistaken, a scan for one kind looks up the numbers of exactly the placeholders of that kind. */
  lemma {:induction false} LookupsAreNumbers(kind: Kind, t: string)
    requires Sound(t) && !Mistaken(kind, t)
    ensures Lookups(kind, t) == Numbers(kind, Names(t))
    decreases |t|
  {
    if NUL in t {
      var text, name, rest := Lead(t);
      assert Names(t)[0] == name && Names(t)[1..] == Names(rest);
      MistakenLead(kind, text, name, rest);
      LookupsLead(kind, text, name, rest);
      LookupsAreNumbers(kind, rest);
    } else {
      NulFreeReads(t);
      LookupsSkip(kind, t, "");
      assert t + "" == t;
    }
  }

  // ---------- substitution ----------

  /** Can replace a placeholder anywhere without touching what is around it. */
  predicate Framed(x: string) {
    x != "" && Sound(x) && !IsNameChar(x[0]) && !IsNameChar(Last(x))
  }

  predicate AllFramed(names: seq<string>, f: string -> string) {
    forall i :: 0 <= i < |names| ==> Framed(f(names[i]))
  }

  /** The placeholders in what replaces `names`. */
  function NamesIn(names: seq<string>, f: string -> string): seq<string> {
    if names == [] then [] else Names(f(names[0])) + NamesIn(names[1..], f)
  }

  lemma LeadJoins(text: string, out: string, rest: string)
    requires Sound(text) && NUL !in text && Framed(out) && Sound(rest)
    ensures Sound(text + out + rest) && Names(text + out + rest) == Names(out) + Names(rest)
  {
    NulFreeReads(text);
    AppendIsSound(text, out);
    AppendIsSound(text + out, rest);
    assert [] + Names(out) == Names(out);
  }

  lemma {:induction false} SubstituteIsSound(t: string, f: string -> string)
    requires Sound(t) && AllFramed(Names(t), f)
    ensures Sound(Substitute(t, f)) && Names(Substitute(t, f)) == NamesIn(Names(t), f)
    decreases |t|
  {
    if NUL in t {
      var text, name, rest := Lead(t);
      var names := Names(t);
      assert names[0] == name && names[1..] == Names(rest);
      assert forall i :: 0 <= i < |Names(rest)| ==> Names(rest)[i] == names[i + 1];
      SubstituteIsSound(rest, f);
      SubstituteLead(text, name, rest, f);
      LeadJoins(text, f(name), Substitute(rest, f));
    } else {
      NulFreeReads(t);
      SubstituteNothing(t, f);
    }
  }

  /** Placeholders that stand for themselves. */
  lemma {:induction false} SubstituteKeeps(t: string, f: string -> string)
    requires Sound(t) && forall i :: 0 <= i < |Names(t)| ==> f(Names(t)[i]) == Bracket(Names(t)[i])
    ensures Substitute(t, f) == t
    decreases |t|
  {
    if NUL in t {
      var text, name, rest := Lead(t);
      assert Names(t)[0] == name;
      assert forall i :: 0 <= i < |Names(rest)| ==> Names(rest)[i] == Names(t)[i + 1];
      SubstituteKeeps(rest, f);
      SubstituteLead(text, name, rest, f);
    } else {
      SubstituteNothing(t, f);
    }
  }

  lemma {:induction false} SubstituteAgrees(t: string, f: string -> string, g: string -> string)
    requires Sound(t) && forall i :: 0 <= i < |Names(t)| ==> f(Names(t)[i]) == g(Names(t)[i])
    ensures Substitute(t, f) == Substitute(t, g)
    decreases |t|
  {
    if NUL in t {
      var text, name, rest := Lead(t);
      assert Names(t)[0] == name;
      assert forall i :: 0 <= i < |Names(rest)| ==> Names(rest)[i] == Names(t)[i + 1];
      SubstituteAgrees(rest, f, g);
      SubstituteLead(text, name, rest, f);
      SubstituteLead(text, name, rest, g);
    } else {
      SubstituteNothing(t, f);
      SubstituteNothing(t, g);
    }
  }

  lemma FourParts<T>(a: seq<T>, b: seq<T>, c: seq<T>, d: seq<T>)
    ensures a + (b + c + d) == (a + b) + c + d
  {
  }

  lemma SubstituteText(a: string, b: string, f: string -> string)
    requires NUL !in a && Sound(b)
    ensures Substitute(a + b, f) == a + Substitute(b, f)
  {
    if NUL in b {
      var text, name, rest := Lead(b);
      SubstituteLead(text, name, rest, f);
      SubstituteLead(a + text, name, rest, f);
      FourParts(a, text, Bracket(name), rest);
      FourParts(a, text, f(name), Substitute(rest, f));
    } else {
      SubstituteNothing(b, f);
      SubstituteNothing(a + b, f);
    }
  }

  lemma {:induction false} SubstituteAppend(a: string, b: string, f: string -> string)
    requires Sound(a) && Sound(b)
    ensures Substitute(a + b, f) == Substitute(a, f) + Substitute(b, f)
    decreases |a|
  {
    if NUL in a {
      var text, name, rest := Lead(a);
      SubstituteAppend(rest, b, f);
      SubstituteLead(text, name, rest, f);
      SubstituteLead(text, name, rest + b, f);
      Associate(text + Bracket(name), rest, b);
      Associate(text + f(name), Substitute(rest, f), Substitute(b, f));
    } else {
      SubstituteNothing(a, f);
      SubstituteText(a, b, f);
    }
  }

  /** Two substitutions in a row are one. */
  lemma {:induction false} SubstituteTwice(t: string, f: string -> string, g: string -> string)
    requires Sound(t) && AllFramed(Names(t), f)
    ensures Substitute(Substitute(t, f), g) == Substitute(t, n => Substitute(f(n), g))
    decreases |t|
  {
    var h := n => Substitute(f(n), g);
    if NUL in t {
      var text, name, rest := Lead(t);
      assert Names(t)[0] == name;
      assert forall i :: 0 <= i < |Names(rest)| ==> Names(rest)[i] == Names(t)[i + 1];
      SubstituteTwice(rest, f, g);
      SubstituteIsSound(rest, f);
      SubstituteLead(text, name, rest, f);
      SubstituteLead(text, name, rest, h);
      var tail := Substitute(rest, f);
      AppendIsSound(text, f(name));
      SubstituteAppend(text + f(name), tail, g);
      SubstituteText(text, f(name), g);
    } else {
      SubstituteNothing(t, f);
      SubstituteNothing(t, g);
      SubstituteNothing(t, h);
    }
  }
}
