/** The three replacements that make text safe inside HTML. */
module Escaping {
  import opened Common
  import opened Rules
  import opened Rewriting

  /** The replacements in the order they are made. */
  function Char(level: nat): char
    requires level < 3
  {
    if level == 0 then '&' else if level == 1 then '<' else '>'
  }

  function EntityOf(level: nat): string
    requires level < 3
  {
    if level == 0 then "&amp;" else if level == 1 then "&lt;" else "&gt;"
  }

  /** `s.replace(/c/g, entity)` for one level. */
  function EscapeOnce(s: string, level: nat): string
    requires level < 3
  {
    Rewrite(Entity(Char(level), EntityOf(level)), s, 0, 0)
  }

  /** All three, one after the other. */
  function Escaped(s: string): string {
    EscapeOnce(EscapeOnce(EscapeOnce(s, 0), 1), 2)
  }

  /** What becomes of one character when the first `levels` replacements are made in one pass. */
  function Image(c: char, levels: nat): string
    requires levels <= 3
  {
    if levels > 0 && c == '&' then EntityOf(0)
    else if levels > 1 && c == '<' then EntityOf(1)
    else if levels > 2 && c == '>' then EntityOf(2)
    else [c]
  }

  function Mapped(s: string, levels: nat): string
    requires levels <= 3
  {
    if s == "" then "" else Image(s[0], levels) + Mapped(s[1..], levels)
  }

  /** Every occurrence of `word`, from left to right. */
  function ReplaceWord(s: string, word: string, sub: string): string
    requires word != ""
    decreases |s|
  {
    if s == "" then ""
    else if word <= s then sub + ReplaceWord(s[|word|..], word, sub)
    else [s[0]] + ReplaceWord(s[1..], word, sub)
  }

  function UnescapeOnce(s: string, level: nat): string
    requires level < 3
  {
    ReplaceWord(s, EntityOf(level), [Char(level)])
  }

  function Unescaped(s: string): string {
    UnescapeOnce(UnescapeOnce(UnescapeOnce(s, 2), 1), 0)
  }

  // ---------- one replacement ----------

  function ReplaceChar(s: string, c: char, entity: string): string {
    if s == "" then ""
    else (if s[0] == c then entity else [s[0]]) + ReplaceChar(s[1..], c, entity)
  }

  lemma {:induction false} EntityRewrites(c: char, entity: string, s: string, i: nat, k: nat)
    requires i <= |s|
    ensures Rewrite(Entity(c, entity), s, i, k) == ReplaceChar(s[i..], c, entity)
    decreases |s| - i
  {
    if i < |s| {
      assert s[i..][0] == s[i] && s[i..][1..] == s[i + 1..];
      if s[i] == c {
        EntityRewrites(c, entity, s, i + 1, k + 1);
        assert s[i..i] + entity == entity;
      } else {
        EntityRewrites(c, entity, s, i + 1, k);
        KeptCharacter(c, entity, s, i, k);
      }
    }
  }

  lemma KeptCharacter(c: char, entity: string, s: string, i: nat, k: nat)
    requires i < |s| && s[i] != c
    ensures Rewrite(Entity(c, entity), s, i, k) == [s[i]] + Rewrite(Entity(c, entity), s, i + 1, k)
  {
    var r := Entity(c, entity);
    match Next(r, s, i + 1, k)
    case None => assert s[i..] == [s[i]] + s[i + 1..];
    case Some(h) =>
      assert s[i..h.at] == [s[i]] + s[i + 1..h.at];
      Associate([s[i]], s[i + 1..h.at], h.out);
      Associate([s[i]], s[i + 1..h.at] + h.out, Rewrite(r, s, h.end, k + 1));
  }

  lemma {:induction false} ReplaceCharAppend(a: string, b: string, c: char, entity: string)
    ensures ReplaceChar(a + b, c, entity) == ReplaceChar(a, c, entity) + ReplaceChar(b, c, entity)
  {
    if a == "" {
      assert a + b == b && ReplaceChar(a, c, entity) + ReplaceChar(b, c, entity) == ReplaceChar(b, c, entity);
    } else {
      var x := if a[0] == c then entity else [a[0]];
      assert (a + b)[1..] == a[1..] + b;
      ReplaceCharAppend(a[1..], b, c, entity);
      Associate(x, ReplaceChar(a[1..], c, entity), ReplaceChar(b, c, entity));
    }
  }

  lemma {:induction false} NothingToReplace(s: string, c: char, entity: string)
    requires c !in s
    ensures ReplaceChar(s, c, entity) == s
  {
    if s != "" {
      assert s[0] in s && s == [s[0]] + s[1..];
      NothingToReplace(s[1..], c, entity);
    }
  }

  /** One replacement more takes an image to the next one. */
  lemma ImageGrows(c: char, level: nat)
    requires level < 3
    ensures ReplaceChar(Image(c, level), Char(level), EntityOf(level)) == Image(c, level + 1)
  {
    if Image(c, level) == [c] {
      assert [c][1..] == "" && EntityOf(level) + "" == EntityOf(level);
    } else {
      NothingToReplace(Image(c, level), Char(level), EntityOf(level));
    }
  }

  lemma {:induction false} MappedGrows(s: string, level: nat)
    requires level < 3
    ensures ReplaceChar(Mapped(s, level), Char(level), EntityOf(level)) == Mapped(s, level + 1)
  {
    if s != "" {
      ReplaceCharAppend(Image(s[0], level), Mapped(s[1..], level), Char(level), EntityOf(level));
      ImageGrows(s[0], level);
      MappedGrows(s[1..], level);
    }
  }

  lemma {:induction false} NothingMapped(s: string)
    ensures Mapped(s, 0) == s
  {
    if s != "" {
      NothingMapped(s[1..]);
      assert s == [s[0]] + s[1..];
    }
  }

  /** The three whole-text replacements are one pass over the characters. */
  lemma EscapedIsMapped(s: string)
    ensures Escaped(s) == Mapped(s, 3)
  {
    NothingMapped(s);
    OneMoreLevel(s, 0);
    OneMoreLevel(s, 1);
    OneMoreLevel(s, 2);
  }

  lemma OneMoreLevel(s: string, level: nat)
    requires level < 3
    ensures EscapeOnce(Mapped(s, level), level) == Mapped(s, level + 1)
  {
    var t := Mapped(s, level);
    EntityRewrites(Char(level), EntityOf(level), t, 0, 0);
    assert t[0..] == t;
    MappedGrows(s, level);
  }

  // ---------- what the result looks like ----------

  lemma {:induction false} MappedHasNone(s: string)
    ensures '<' !in Mapped(s, 3) && '>' !in Mapped(s, 3)
  {
    if s != "" {
      MappedHasNone(s[1..]);
    }
  }

  /** No raw angle bracket is left. */
  lemma NoRawBrackets(s: string)
    ensures '<' !in Escaped(s) && '>' !in Escaped(s)
  {
    EscapedIsMapped(s);
    MappedHasNone(s);
  }

  // ---------- undoing ----------

  lemma ReplaceStep(c: char, rest: string, word: string, sub: string)
    requires word != "" && !(word <= [c] + rest)
    ensures ReplaceWord([c] + rest, word, sub) == [c] + ReplaceWord(rest, word, sub)
  {
    assert ([c] + rest)[1..] == rest;
  }

  lemma {:induction false} ReplaceCopies(text: string, rest: string, word: string, sub: string)
    requires word != "" && word[0] !in text
    ensures ReplaceWord(text + rest, word, sub) == text + ReplaceWord(rest, word, sub)
  {
    if text == "" {
      assert text + rest == rest && text + ReplaceWord(rest, word, sub) == ReplaceWord(rest, word, sub);
    } else {
      var c, more := text[0], text[1..];
      assert text == [c] + more && c in text;
      ReplaceCopies(more, rest, word, sub);
      Associate([c], more, rest);
      ReplaceStep(c, more + rest, word, sub);
      Associate([c], more, ReplaceWord(rest, word, sub));
    }
  }

  /** The entities differ in their second character, and `&` is only the first. */
  lemma EntityShape(level: nat)
    requires level < 3
    ensures
      var e := EntityOf(level);
      |e| > 1 && e[0] == '&' && '&' !in e[1..] && e[1] == if level == 0 then 'a' else if level == 1 then 'l' else 'g'
  {
  }

  lemma OtherEntity(other: nat, level: nat, rest: string)
    requires other < 3 && level < 3 && other != level
    ensures ReplaceWord(EntityOf(other) + rest, EntityOf(level), [Char(level)]) ==
            EntityOf(other) + ReplaceWord(rest, EntityOf(level), [Char(level)])
  {
    var e, word, sub := EntityOf(other), EntityOf(level), [Char(level)];
    var tail := e[1..];
    EntityShape(other);
    EntityShape(level);
    assert e == ['&'] + tail;
    Associate(['&'], tail, rest);
    assert (['&'] + (tail + rest))[1] == e[1];
    ReplaceStep('&', tail + rest, word, sub);
    ReplaceCopies(tail, rest, word, sub);
    Associate(['&'], tail, ReplaceWord(rest, word, sub));
  }

  lemma OwnEntity(level: nat, rest: string)
    requires level < 3
    ensures ReplaceWord(EntityOf(level) + rest, EntityOf(level), [Char(level)]) ==
            [Char(level)] + ReplaceWord(rest, EntityOf(level), [Char(level)])
  {
    assert (EntityOf(level) + rest)[|EntityOf(level)|..] == rest;
  }

  /** Undoing one replacement at the front of a text. */
  lemma ImageShrinks(c: char, level: nat, rest: string)
    requires level < 3
    ensures ReplaceWord(Image(c, level + 1) + rest, EntityOf(level), [Char(level)]) ==
            Image(c, level) + ReplaceWord(rest, EntityOf(level), [Char(level)])
  {
    EntityShape(level);
    if c == Char(level) {
      OwnEntity(level, rest);
    } else if c == '&' {
      OtherEntity(0, level, rest);
    } else if level > 1 && c == '<' {
      OtherEntity(1, level, rest);
    } else {
      ReplaceCopies([c], rest, EntityOf(level), [Char(level)]);
    }
  }

  lemma {:induction false} MappedShrinks(s: string, level: nat)
    requires level < 3
    ensures UnescapeOnce(Mapped(s, level + 1), level) == Mapped(s, level)
  {
    if s != "" {
      ImageShrinks(s[0], level, Mapped(s[1..], level + 1));
      MappedShrinks(s[1..], level);
    }
  }

  /** The replacements undone in reverse order. */
  lemma UnescapeUndoes(s: string)
    ensures Unescaped(Escaped(s)) == s
  {
    EscapedIsMapped(s);
    MappedShrinks(s, 2);
    MappedShrinks(s, 1);
    MappedShrinks(s, 0);
    NothingMapped(s);
  }

  /** Different texts never look the same once escaped. */
  lemma EscapeIsInjective(a: string, b: string)
    requires Escaped(a) == Escaped(b)
    ensures a == b
  {
    UnescapeUndoes(a);
    UnescapeUndoes(b);
  }
}
