/** How often each extracted piece comes back: the three restoring passes together. */
module Counting {
  import opened Common
  import opened Marks
  import opened Rules
  import opened Restoring
  import opened Extraction
  import opened Markdown
  import opened Conversion

  /** The text that the restoring pass for `kind` scans. */
  function Scanned(text: string, missing: string, kind: Kind): string {
    match kind
    case Url => Layout(text)
    case Block => WithUrls(text, missing)
    case Inline => WithBlocks(text, missing)
  }

  /** How often the pass for `kind` looks up number `k`. */
  function Times(text: string, missing: string, kind: Kind, k: nat): nat {
    multiset(Lookups(kind, Scanned(text, missing, kind)))[k]
  }

  /** How often the name occurs. */
  function Count(names: seq<string>, n: string): nat {
    multiset(names)[n]
  }

  lemma CountCons(names: seq<string>, n: string)
    requires names != []
    ensures Count(names, n) == (if names[0] == n then 1 else 0) + Count(names[1..], n)
  {
    assert names == [names[0]] + names[1..];
  }

  lemma CountAppend(a: seq<string>, b: seq<string>, n: string)
    ensures Count(a + b, n) == Count(a, n) + Count(b, n)
  {
  }

  // ---------- numbers and names ----------

  lemma {:induction false} NumbersCount(text: string, kind: Kind, names: seq<string>, k: nat)
    requires forall i :: 0 <= i < |names| ==> IsIssued(text, names[i])
    ensures multiset(Numbers(kind, names))[k] == Count(names, NameOf(kind, k))
  {
    if names != [] {
      NumbersCount(text, kind, names[1..], k);
      CountCons(names, NameOf(kind, k));
      NumberIsName(text, kind, names[0], k);
      var first := match Number(kind, names[0]) case Some(j) => [j] case None => [];
      assert multiset(Numbers(kind, names)) == multiset(first) + multiset(Numbers(kind, names[1..]));
    }
  }

  lemma NumberIsName(text: string, kind: Kind, n: string, k: nat)
    requires IsIssued(text, n)
    ensures Number(kind, n) == Some(k) <==> n == NameOf(kind, k)
  {
    var own, j := IssuedAs(text, n);
    NumberOfName(kind, k);
  }

  lemma SameName(kind: Kind, j: nat, k: nat)
    ensures NameOf(kind, j) == NameOf(kind, k) <==> j == k
  {
    NumberOfName(kind, j);
    NumberOfName(kind, k);
  }

  lemma CountFirst(x: string, names: seq<string>, n: string)
    ensures Count([x] + names, n) == (if x == n then 1 else 0) + Count(names, n)
  {
    CountAppend([x], names, n);
  }

  lemma {:induction false} IssuedOnce(kind: Kind, first: nat, count: nat, k: nat)
    ensures Count(NamesFrom(kind, first, count), NameOf(kind, k)) == if first <= k < first + count then 1 else 0
    decreases count
  {
    if count == 0 {
      assert NamesFrom(kind, first, count) == [];
    } else {
      IssuedOnce(kind, first + 1, count - 1, k);
      NamesFromCons(kind, first, count - 1);
      SameName(kind, first, k);
      CountFirst(NameOf(kind, first), NamesFrom(kind, first + 1, count - 1), NameOf(kind, k));
    }
  }

  lemma NotIssued(text: string, kind: Kind, n: string)
    requires n !in Issued(text, kind)
    ensures Count(Issued(text, kind), n) == 0
  {
  }

  /** A name that was given out is given out once, for one kind. */
  lemma AllIssuedOnce(text: string, kind: Kind, k: nat)
    requires k < |SpansOf(text, kind)|
    ensures
      var n := NameOf(kind, k);
      Count(Issued(text, Block), n) + Count(Issued(text, Inline), n) + Count(Issued(text, Url), n) == 1
  {
    var n := NameOf(kind, k);
    assert Issued(text, kind)[k] == n;
    NotBoth(text, n, kind);
    IssuedOnce(kind, 0, |SpansOf(text, kind)|, k);
    forall other | other != kind
      ensures Count(Issued(text, other), n) == 0
    {
      NotIssued(text, other, n);
    }
  }

  // ---------- the pass for addresses ----------

  /** The address that a name stands for, if any. */
  function Address(text: string): string -> string {
    (n: string) =>
      match Number(Url, n)
      case Some(k) => if k < |SpansOf(text, Url)| then SpansOf(text, Url)[k] else ""
      case None => ""
  }

  lemma AddressTwice(text: string, k: nat, n: string)
    requires NUL !in text && k < |SpansOf(text, Url)|
    ensures Count(Names(Html(Url, SpansOf(text, Url)[k])), n) == 2 * Count(Names(SpansOf(text, Url)[k]), n)
  {
    var span := SpansOf(text, Url)[k];
    BeforeIsSound(text, Url);
    SpanIsSound(Url, Before(text, Url), k);
    UrlHtmlIsFramed(span);
    assert multiset(Names(Html(Url, span)))[n] == (multiset(Names(span)) + multiset(Names(span)))[n];
  }

  /** What the pass puts for one name: an address twice, anything else as it was. */
  lemma UrlPassOnName(text: string, missing: string, m: string, n: string)
    requires NUL !in text && IsIssued(text, m) && IsCode(text, n)
    ensures Count(Names(Only(Url, Stored(text, Url, missing))(m)), n) ==
            (if m == n then 1 else 0) + 2 * Count(Names(Address(text)(m)), n)
  {
    PassOnName(text, Url, missing, m);
    match Number(Url, m)
    case None =>
      CountFirst(m, [], n);
      assert [m] + [] == [m];
    case Some(k) =>
      AddressTwice(text, k, n);
      CodeIsNoAddress(text, n);
  }

  lemma {:induction false} UrlPassOnNames(text: string, missing: string, names: seq<string>, n: string)
    requires NUL !in text && IsCode(text, n) && forall i :: 0 <= i < |names| ==> IsIssued(text, names[i])
    ensures Count(NamesIn(names, Only(Url, Stored(text, Url, missing))), n) ==
            Count(names, n) + 2 * Count(NamesIn(names, Address(text)), n)
  {
    if names != [] {
      var f, g := Only(Url, Stored(text, Url, missing)), Address(text);
      UrlPassOnName(text, missing, names[0], n);
      UrlPassOnNames(text, missing, names[1..], n);
      CountCons(names, n);
      CountAppend(Names(f(names[0])), NamesIn(names[1..], f), n);
      CountAppend(Names(g(names[0])), NamesIn(names[1..], g), n);
    }
  }

  // ---------- which addresses there are ----------

  lemma {:induction false} NamesInAppend(a: seq<string>, b: seq<string>, f: string -> string)
    ensures NamesIn(a + b, f) == NamesIn(a, f) + NamesIn(b, f)
  {
    if a == [] {
      assert a + b == b && NamesIn(a, f) + NamesIn(b, f) == NamesIn(b, f);
    } else {
      assert (a + b)[1..] == a[1..] + b;
      NamesInAppend(a[1..], b, f);
      Associate(Names(f(a[0])), NamesIn(a[1..], f), NamesIn(b, f));
    }
  }

  lemma OneMoreName(x: string, names: seq<string>, f: string -> string)
    ensures multiset(NamesIn([x] + names, f)) == multiset(Names(f(x))) + multiset(NamesIn(names, f))
  {
    assert ([x] + names)[1..] == names;
  }

  /** A sequence without its `i`th element. */
  function Without<T>(s: seq<T>, i: nat): seq<T>
    requires i < |s|
  {
    s[..i] + s[i + 1..]
  }

  lemma WithoutOne<T>(s: seq<T>, i: nat)
    requires i < |s|
    ensures multiset(s) == multiset{s[i]} + multiset(Without(s, i))
  {
    assert s == s[..i] + ([s[i]] + s[i + 1..]);
  }

  lemma PutBack(names: seq<string>, i: nat, f: string -> string)
    requires i < |names|
    ensures multiset(NamesIn(names, f)) == multiset(Names(f(names[i]))) + multiset(NamesIn(Without(names, i), f))
  {
    var a, b := names[..i], names[i + 1..];
    assert names == a + ([names[i]] + b);
    NamesInAppend(a, [names[i]] + b, f);
    NamesInAppend(a, b, f);
    OneMoreName(names[i], b, f);
  }

  /** The order of the names does not matter. */
  lemma {:induction false} NamesInPermutes(a: seq<string>, b: seq<string>, f: string -> string)
    requires multiset(a) == multiset(b)
    ensures multiset(NamesIn(a, f)) == multiset(NamesIn(b, f))
    decreases |a|
  {
    if a == [] {
      assert |multiset(b)| == 0;
    } else {
      assert a[0] in multiset(b);
      var i :| 0 <= i < |b| && b[i] == a[0];
      WithoutOne(a, 0);
      WithoutOne(b, i);
      Cancel(multiset{a[0]}, multiset(Without(a, 0)), multiset(Without(b, i)));
      NamesInPermutes(Without(a, 0), Without(b, i), f);
      PutBack(a, 0, f);
      PutBack(b, i, f);
    }
  }

  lemma Cancel<T>(x: multiset<T>, a: multiset<T>, b: multiset<T>)
    requires x + a == x + b
    ensures a == b
  {
    assert a == (x + a) - x && b == (x + b) - x;
  }

  /** The names of every other kind. */
  function Others(kind: Kind, names: seq<string>): seq<string> {
    if names == [] then []
    else (if Number(kind, names[0]).None? then [names[0]] else []) + Others(kind, names[1..])
  }

  lemma {:induction false} OthersCount(kind: Kind, names: seq<string>, n: string)
    ensures Count(Others(kind, names), n) == if Number(kind, n).None? then Count(names, n) else 0
    ensures forall i :: 0 <= i < |Others(kind, names)| ==> Number(kind, Others(kind, names)[i]).None?
  {
    if names != [] {
      OthersCount(kind, names[1..], n);
      CountCons(names, n);
      var first := if Number(kind, names[0]).None? then [names[0]] else [];
      CountAppend(first, Others(kind, names[1..]), n);
    }
  }

  lemma {:induction false} OthersHaveNoAddress(text: string, names: seq<string>)
    requires forall i :: 0 <= i < |names| ==> Number(Url, names[i]).None?
    ensures NamesIn(names, Address(text)) == []
  {
    if names != [] {
      OthersHaveNoAddress(text, names[1..]);
    }
  }

  /** The addresses in the order they were extracted. */
  lemma {:induction false} AddressesInOrder(text: string, k: nat)
    requires k <= |SpansOf(text, Url)|
    ensures NamesIn(NamesFrom(Url, k, |SpansOf(text, Url)| - k), Address(text)) == Nested(SpansOf(text, Url)[k..])
    decreases |SpansOf(text, Url)| - k
  {
    var spans := SpansOf(text, Url);
    if k < |spans| {
      AddressesInOrder(text, k + 1);
      NamesFromCons(Url, k, |spans| - k - 1);
      NumberOfName(Url, k);
      var later := NamesFrom(Url, k + 1, |spans| - k - 1);
      assert ([NameOf(Url, k)] + later)[1..] == later;
      assert spans[k..][0] == spans[k] && spans[k..][1..] == spans[k + 1..];
    }
  }

  /** The name of an address is in the layout exactly once, and nowhere else. */
  lemma AddressNames(text: string, n: string)
    requires NUL !in text && Number(Url, n).Some?
    ensures Count(Names(Layout(text)), n) == Count(Issued(text, Url), n)
  {
    var names, urls, codes := Names(Layout(text)), Nested(SpansOf(text, Url)), Names(WithoutCode(text));
    UrlLedger(text);
    assert Count(urls, n) == 0 by {
      if n in urls {
        var j := NestedFrom(SpansOf(text, Url), n);
        NamesOfSpan(text, Url, j, n);
        CodeIsNoAddress(text, n);
      }
    }
    assert Count(codes, n) == 0 by {
      if n in codes {
        NamesWithoutCode(text, n);
        CodeIsNoAddress(text, n);
      }
    }
    assert (multiset(names) + multiset(urls))[n] == (multiset(codes) + multiset(Issued(text, Url)))[n];
  }

  lemma CodeIsNoAddress(text: string, n: string)
    requires IsCode(text, n)
    ensures Number(Url, n) == None
  {
    var own, k := IssuedAs(text, n);
  }

  lemma LayoutSplits(text: string)
    requires NUL !in text
    ensures multiset(Names(Layout(text))) == multiset(Others(Url, Names(Layout(text))) + Issued(text, Url))
  {
    var names, issued := Names(Layout(text)), Issued(text, Url);
    var others := Others(Url, names);
    forall n: string
      ensures multiset(names)[n] == multiset(others + issued)[n]
    {
      OthersCount(Url, names, n);
      CountAppend(others, issued, n);
      if Number(Url, n).Some? {
        AddressNames(text, n);
      } else {
        NotIssuedUrl(text, n);
      }
    }
  }

  lemma AddressesSplit(text: string, names: seq<string>)
    ensures NamesIn(Others(Url, names) + Issued(text, Url), Address(text)) == Nested(SpansOf(text, Url))
  {
    var others, issued := Others(Url, names), Issued(text, Url);
    NamesInAppend(others, issued, Address(text));
    OthersCount(Url, names, "");
    OthersHaveNoAddress(text, others);
    AddressesInOrder(text, 0);
    assert SpansOf(text, Url)[0..] == SpansOf(text, Url);
    assert [] + NamesIn(issued, Address(text)) == NamesIn(issued, Address(text));
  }

  /** The placeholders inside the addresses of the layout are those inside the extracted addresses. */
  lemma AddressesOfLayout(text: string)
    requires NUL !in text
    ensures multiset(NamesIn(Names(Layout(text)), Address(text))) == multiset(Nested(SpansOf(text, Url)))
  {
    var names := Names(Layout(text));
    LayoutSplits(text);
    AddressesSplit(text, names);
    NamesInPermutes(names, Others(Url, names) + Issued(text, Url), Address(text));
  }

  lemma NotIssuedUrl(text: string, n: string)
    requires Number(Url, n).None?
    ensures Count(Issued(text, Url), n) == 0
  {
    if n in Issued(text, Url) {
      var k := IssuedNumber(text, Url, n);
    }
  }

  // ---------- the counting law ----------

  /** After the pass for addresses, a piece of code is there as often as before and twice for each address it is in. */
  lemma UrlPassCounts(text: string, missing: string, n: string)
    requires NUL !in text && !Mistaken(Url, Layout(text)) && IsCode(text, n)
    ensures Count(Names(WithUrls(text, missing)), n) ==
            Count(Names(Layout(text)), n) + 2 * Count(Nested(SpansOf(text, Url)), n)
  {
    LayoutIsIssued(text);
    PassIsSound(text, Url, missing, Layout(text));
    UrlPassOnNames(text, missing, Names(Layout(text)), n);
    AddressesOfLayout(text);
  }

  lemma {:induction false} BlockPassOnNames(text: string, missing: string, names: seq<string>, n: string)
    requires NUL !in text && n in Issued(text, Inline) && forall i :: 0 <= i < |names| ==> IsIssued(text, names[i])
    ensures Count(NamesIn(names, Only(Block, Stored(text, Block, missing))), n) == Count(names, n)
  {
    if names != [] {
      var f := Only(Block, Stored(text, Block, missing));
      BlockPassOnName(text, missing, names[0], n);
      BlockPassOnNames(text, missing, names[1..], n);
      CountCons(names, n);
      CountAppend(Names(f(names[0])), NamesIn(names[1..], f), n);
    }
  }

  lemma BlockPassOnName(text: string, missing: string, m: string, n: string)
    requires NUL !in text && n in Issued(text, Inline) && IsIssued(text, m)
    ensures Count(Names(Only(Block, Stored(text, Block, missing))(m)), n) == if m == n then 1 else 0
  {
    PassOnName(text, Block, missing, m);
    var k := IssuedNumber(text, Inline, n);
    match Number(Block, m)
    case None =>
    case Some(j) =>
      HtmlIsFramed(text, Block, j);
      if n in Names(SpansOf(text, Block)[j]) {
        NamesOfSpan(text, Block, j, n);
      }
  }

  /** The pass for blocks keeps every piece of inline code. */
  lemma BlockPassCounts(text: string, missing: string, n: string)
    requires NUL !in text && Unmistaken(text, missing) && n in Issued(text, Inline)
    ensures Count(Names(WithBlocks(text, missing)), n) == Count(Names(WithUrls(text, missing)), n)
  {
    NamesWithUrls(text, missing);
    PassIsSound(text, Block, missing, WithUrls(text, missing));
    BlockPassOnNames(text, missing, Names(WithUrls(text, missing)), n);
  }

  /** How often a name that was given out is in the layout, in an address or in inline code: once in all. */
  lemma LedgerCounts(text: string, kind: Kind, k: nat)
    requires NUL !in text && k < |SpansOf(text, kind)|
    ensures
      var n := NameOf(kind, k);
      Count(Names(Layout(text)), n) + Count(Nested(SpansOf(text, Url)), n)
      + Count(Nested(SpansOf(text, Inline)), n) == 1
  {
    var n := NameOf(kind, k);
    Ledger(text);
    AllIssuedOnce(text, kind, k);
    var held := multiset(Names(Layout(text))) + multiset(Nested(SpansOf(text, Url)))
                + multiset(Nested(SpansOf(text, Inline)));
    var all := multiset(Issued(text, Block)) + multiset(Issued(text, Inline)) + multiset(Issued(text, Url));
    assert held[n] == all[n];
  }

  lemma ScannedIsSound(text: string, missing: string, kind: Kind)
    requires NUL !in text && Unmistaken(text, missing)
    ensures Sound(Scanned(text, missing, kind)) && !Mistaken(kind, Scanned(text, missing, kind))
    ensures forall n :: n in Names(Scanned(text, missing, kind)) ==> IsIssued(text, n)
  {
    match kind
    case Url => LayoutIsIssued(text);
    case Block => NamesWithUrls(text, missing);
    case Inline =>
      NamesWithBlocks(text, missing);
      InlineIsNeverMistaken(text, missing);
  }

  lemma TimesIsCount(text: string, missing: string, kind: Kind, k: nat)
    requires NUL !in text && Unmistaken(text, missing)
    ensures Times(text, missing, kind, k) == Count(Names(Scanned(text, missing, kind)), NameOf(kind, k))
  {
    var t := Scanned(text, missing, kind);
    ScannedIsSound(text, missing, kind);
    LookupsAreNumbers(kind, t);
    NumbersCount(text, kind, Names(t), k);
  }

  lemma UrlIsNotNested(text: string, k: nat)
    requires NUL !in text && k < |SpansOf(text, Url)|
    ensures NameOf(Url, k) !in Nested(SpansOf(text, Url)) && NameOf(Url, k) !in Nested(SpansOf(text, Inline))
  {
    var n := NameOf(Url, k);
    NumberOfName(Url, k);
    if n in Nested(SpansOf(text, Url)) {
      var j := NestedFrom(SpansOf(text, Url), n);
      NamesOfSpan(text, Url, j, n);
      CodeIsNoAddress(text, n);
    }
    if n in Nested(SpansOf(text, Inline)) {
      var j := NestedFrom(SpansOf(text, Inline), n);
      NamesOfSpan(text, Inline, j, n);
      CodeIsNoAddress(text, n);
    }
  }

  lemma ScannedCounts(text: string, missing: string, kind: Kind, k: nat)
    requires NUL !in text && Unmistaken(text, missing) && k < |SpansOf(text, kind)|
    ensures
      var n := NameOf(kind, k);
      Count(Names(Scanned(text, missing, kind)), n) ==
      Count(Names(Layout(text)), n) + 2 * Count(Nested(SpansOf(text, Url)), n)
  {
    var n := NameOf(kind, k);
    assert Issued(text, kind)[k] == n;
    match kind
    case Url => UrlIsNotNested(text, k);
    case Block => UrlPassCounts(text, missing, n);
    case Inline =>
      UrlPassCounts(text, missing, n);
      BlockPassCounts(text, missing, n);
  }

  /**
   The counting law: over the three restoring passes a stored piece is put into the text twice if
   its placeholder is inside an address, never if it is inside inline code, and otherwise once.
   */
  lemma TimesRestored(text: string, missing: string, kind: Kind, k: nat)
    requires NUL !in text && Unmistaken(text, missing) && k < |SpansOf(text, kind)|
    ensures
      Times(text, missing, kind, k) ==
      if NameOf(kind, k) in Nested(SpansOf(text, Url)) then 2
      else if NameOf(kind, k) in Nested(SpansOf(text, Inline)) then 0
      else 1
  {
    TimesIsCount(text, missing, kind, k);
    ScannedCounts(text, missing, kind, k);
    LedgerCounts(text, kind, k);
  }

  /** Every stored piece is put into the text exactly once if and only if no piece holds the placeholder of another. */
  lemma RestoredOnce(text: string, missing: string)
    requires NUL !in text && Unmistaken(text, missing)
    ensures
      (forall kind, k :: 0 <= k < |SpansOf(text, kind)| ==> Times(text, missing, kind, k) == 1) <==> Separate(text)
  {
    NestedMeansNul(text, Inline);
    NestedMeansNul(text, Url);
    if Separate(text) {
      forall kind, k | 0 <= k < |SpansOf(text, kind)|
        ensures Times(text, missing, kind, k) == 1
      {
        TimesRestored(text, missing, kind, k);
      }
    } else {
      var kind, k := NotOnce(text, missing);
    }
  }

  /** A piece whose placeholder is inside another piece. */
  lemma NotOnce(text: string, missing: string) returns (kind: Kind, k: nat)
    requires NUL !in text && Unmistaken(text, missing)
    requires Nested(SpansOf(text, Url)) != [] || Nested(SpansOf(text, Inline)) != []
    ensures k < |SpansOf(text, kind)| && Times(text, missing, kind, k) != 1
  {
    var outer := if Nested(SpansOf(text, Url)) != [] then Url else Inline;
    var n := Nested(SpansOf(text, outer))[0];
    var j := NestedFrom(SpansOf(text, outer), n);
    NamesOfSpan(text, outer, j, n);
    kind, k := IssuedAs(text, n);
    TimesRestored(text, missing, kind, k);
  }

  // ---------- the converted text ----------

  function PieceAt(text: string, kind: Kind, number: Option<nat>): string {
    if number.Some? && number.value < |SpansOf(text, kind)| then Html(kind, SpansOf(text, kind)[number.value]) else ""
  }

  /** The HTML of the piece that a name stands for. */
  function Piece(text: string): string -> string {
    (n: string) =>
      if Number(Url, n).Some? then PieceAt(text, Url, Number(Url, n))
      else if Number(Block, n).Some? then PieceAt(text, Block, Number(Block, n))
      else PieceAt(text, Inline, Number(Inline, n))
  }

  lemma PieceOfName(text: string, kind: Kind, k: nat)
    requires k < |SpansOf(text, kind)|
    ensures Piece(text)(NameOf(kind, k)) == Html(kind, SpansOf(text, kind)[k])
  {
    NumberOfName(kind, k);
    if kind != Url {
      NumberOfOtherName(Url, kind, k);
      if kind != Block {
        NumberOfOtherName(Block, kind, k);
      }
    }
  }

  lemma SpansAreNulFree(text: string, kind: Kind, k: nat)
    requires NUL !in text && Separate(text) && k < |SpansOf(text, kind)|
    ensures NUL !in SpansOf(text, kind)[k]
  {
    if kind.Block? {
      TextIsSound(text);
      NothingNested(Block, text);
      NestedMeansNul(text, Block);
    }
  }

  /**
   A text whose pieces are separate, and of which nothing is mistaken: the converted text is the
   formatted text with each placeholder replaced by the HTML of its piece; every piece is there,
   exactly once; and no placeholder is left.
   */
  lemma ConvertedHoldsEachPieceOnce(text: string, missing: string)
    requires NUL !in text && Unmistaken(text, missing) && Separate(text)
    ensures Converted(text, missing) == Substitute(Layout(text), Piece(text))
    ensures multiset(Names(Layout(text))) ==
            multiset(Issued(text, Block)) + multiset(Issued(text, Inline)) + multiset(Issued(text, Url))
    ensures forall kind, k :: 0 <= k < |SpansOf(text, kind)| ==>
              Piece(text)(NameOf(kind, k)) == Html(kind, SpansOf(text, kind)[k]) && Times(text, missing, kind, k) == 1
    ensures NUL !in Converted(text, missing)
  {
    EachPieceOnce(text);
    RestoredOnce(text, missing);
    NothingLeftOver(text, missing);
    RestoredInOneGo(text, missing);
    LayoutIsIssued(text);
    forall kind, k | 0 <= k < |SpansOf(text, kind)|
      ensures Piece(text)(NameOf(kind, k)) == Html(kind, SpansOf(text, kind)[k])
    {
      PieceOfName(text, kind, k);
    }
    var names := Names(Layout(text));
    forall i | 0 <= i < |names|
      ensures Shown(text, missing)(names[i]) == Piece(text)(names[i])
    {
      var kind, k := IssuedAs(text, names[i]);
      SpansAreNulFree(text, kind, k);
      ShownAsStored(text, missing, kind, k);
      PieceOfName(text, kind, k);
    }
    SubstituteAgrees(Layout(text), Shown(text, missing), Piece(text));
  }
}
