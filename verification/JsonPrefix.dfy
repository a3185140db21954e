/** A JSON object whose text is cut off is not JSON: no proper prefix of it parses. */
module JsonPrefix {
  import opened Common
  import opened Json

  // A reader that has finished before the end of its text does not look at what is added behind it.

  lemma {:induction false} SpaceExtends(s: string, x: string)
    requires SkipSpace(s) != ""
    ensures SkipSpace(s + x) == SkipSpace(s) + x
  {
    assert (s + x)[0] == s[0];
    if IsSpace(s[0]) {
      SpaceExtends(s[1..], x);
      assert (s + x)[1..] == s[1..] + x;
    }
  }

  lemma HexExtends(s: string, x: string)
    requires Hex4(s).Some?
    ensures Hex4(s + x) == Hex4(s)
  {
  }

  lemma UnicodeExtends(s: string, x: string)
    requires ParseUnicode(s).Parsed?
    ensures ParseUnicode(s + x) == ParseUnicode(s).(rest := ParseUnicode(s).rest + x)
  {
    HexExtends(s, x);
    assert (s + x)[4..] == s[4..] + x;
    if |s| >= 6 {
      assert (s + x)[6..] == s[6..] + x;
      if Hex4(s[6..]).Some? {
        HexExtends(s[6..], x);
        assert (s + x)[10..] == s[10..] + x;
      }
    }
  }

  lemma EscapeExtends(s: string, x: string)
    requires ParseEscape(s).Parsed?
    ensures ParseEscape(s + x) == ParseEscape(s).(rest := ParseEscape(s).rest + x)
  {
    assert (s + x)[0] == s[0] && (s + x)[1..] == s[1..] + x;
    if s[0] == 'u' {
      UnicodeExtends(s[1..], x);
    }
  }

  lemma {:induction false} StringExtends(s: string, x: string)
    requires ParseString(s).Parsed?
    ensures ParseString(s + x) == ParseString(s).(rest := ParseString(s).rest + x)
    decreases |s|
  {
    assert (s + x)[0] == s[0] && (s + x)[1..] == s[1..] + x;
    if s[0] == '\\' {
      EscapeExtends(s[1..], x);
      StringExtends(ParseEscape(s[1..]).rest, x);
    } else if s[0] != '"' {
      StringExtends(s[1..], x);
    }
  }

  lemma {:induction false} NumberExtends(s: string, x: string)
    requires NumberLength(s) < |s|
    ensures NumberLength(s + x) == NumberLength(s)
  {
    assert (s + x)[0] == s[0] && (s + x)[1..] == s[1..] + x;
    if IsNumberChar(s[0]) {
      NumberExtends(s[1..], x);
    }
  }

  /** Only a number at the very end could go on. */
  predicate Finished(r: Parsed<Json>) {
    r.Parsed? && (r.rest != "" || !r.value.Number?)
  }

  /** The same value, with more text behind it. */
  ghost predicate Longer<T>(r: Parsed<T>, l: Parsed<T>, x: string) {
    r.Parsed? && l == Parsed(r.value, r.rest + x)
  }

  lemma {:induction false} ValueExtends(s: string, x: string)
    requires Finished(ParseValue(s))
    ensures Longer(ParseValue(s), ParseValue(s + x), x)
    decreases |s|, 1
  {
    var t := SkipSpace(s);
    SpaceExtends(s, x);
    Tail(t, x);
    if t[0] == '"' {
      StringExtends(t[1..], x);
    } else if t[0] == '[' {
      ArrayExtends(s, t, x);
    } else if t[0] == '{' {
      ObjectExtends(s, t, x);
    } else if t[0] == '-' || '0' <= t[0] <= '9' {
      NumberValueExtends(t, x);
    } else {
      LiteralExtends(t, x, "true");
      LiteralExtends(t, x, "false");
      LiteralExtends(t, x, "null");
    }
  }

  lemma Tail(t: string, x: string)
    requires t != ""
    ensures (t + x)[0] == t[0] && (t + x)[1..] == t[1..] + x
  {
  }

  lemma NumberValueExtends(t: string, x: string)
    requires NumberLength(t) < |t|
    ensures
      var n := NumberLength(t);
      NumberLength(t + x) == n && (t + x)[..n] == t[..n] && (t + x)[n..] == t[n..] + x
  {
    NumberExtends(t, x);
  }

  lemma LiteralExtends(t: string, x: string, word: string)
    ensures word <= t ==> word <= t + x && (t + x)[|word|..] == t[|word|..] + x
    ensures |word| <= |t| ==> (word <= t <==> word <= t + x)
  {
  }

  /** What follows the opening bracket, where it is not an empty list. */
  lemma {:induction false} ArrayExtends(s: string, t: string, x: string)
    requires t == SkipSpace(s) && SkipSpace(s + x) == t + x && t != "" && t[0] == '[' && ParseValue(s).Parsed?
    ensures Longer(ParseValue(s), ParseValue(s + x), x)
    decreases |s|, 0
  {
    var inner := SkipSpace(t[1..]);
    Tail(t, x);
    if inner != "" {
      SpaceExtends(t[1..], x);
      Tail(inner, x);
    }
    if inner == "" || inner[0] != ']' {
      ItemsExtend(t[1..], x);
    }
  }

  lemma {:induction false} ObjectExtends(s: string, t: string, x: string)
    requires t == SkipSpace(s) && SkipSpace(s + x) == t + x && t != "" && t[0] == '{' && ParseValue(s).Parsed?
    ensures Longer(ParseValue(s), ParseValue(s + x), x)
    decreases |s|, 0
  {
    var inner := SkipSpace(t[1..]);
    Tail(t, x);
    if inner != "" {
      SpaceExtends(t[1..], x);
      Tail(inner, x);
    }
    if inner == "" || inner[0] != '}' {
      FieldsExtend(t[1..], x);
    }
  }

  lemma {:induction false} ItemsExtend(s: string, x: string)
    requires ParseItems(s).Parsed?
    ensures Longer(ParseItems(s), ParseItems(s + x), x)
    decreases |s|, 2
  {
    var after := ParseValue(s).rest;
    ValueExtends(s, x);
    SpaceExtends(after, x);
    Tail(SkipSpace(after), x);
    if SkipSpace(after)[0] == ',' {
      ItemsExtend(SkipSpace(after)[1..], x);
    }
  }

  lemma {:induction false} FieldExtends(text: string, x: string)
    requires ParseField(text).Parsed? && ParseField(text).rest != ""
    ensures Longer(ParseField(text), ParseField(text + x), x)
    decreases |text|, 2
  {
    var s := SkipSpace(text);
    var after := ParseString(s[1..]).rest;
    SpaceExtends(text, x);
    Tail(s, x);
    StringExtends(s[1..], x);
    SpaceExtends(after, x);
    Tail(SkipSpace(after), x);
    ValueExtends(SkipSpace(after)[1..], x);
  }

  lemma {:induction false} FieldsExtend(s: string, x: string)
    requires ParseFields(s).Parsed?
    ensures Longer(ParseFields(s), ParseFields(s + x), x)
    decreases |s|, 3
  {
    var after := ParseField(s).rest;
    FieldExtends(s, x);
    SpaceExtends(after, x);
    Tail(SkipSpace(after), x);
    if SkipSpace(after)[0] == ',' {
      FieldsExtend(SkipSpace(after)[1..], x);
    }
  }

  /** An object's text with its end cut off does not parse. */
  lemma CutObjectIsNotJson(fields: seq<Field>, cut: string)
    requires WellFormed(Object(fields)) && cut <= Print(Object(fields)) && cut != Print(Object(fields))
    ensures Parse(cut) == None
  {
    var whole := Print(Object(fields));
    var x := whole[|cut|..];
    PrintedParses(Object(fields), "");
    assert whole + "" == whole && cut + x == whole && x != "";
    if Parse(cut).Some? {
      StartsObject(cut, whole);
      ValueExtends(cut, x);
    }
  }

  lemma StartsObject(cut: string, whole: string)
    requires cut <= whole && whole != "" && whole[0] == '{' && ParseValue(cut).Parsed?
    ensures !ParseValue(cut).value.Number?
  {
    if cut != "" {
      assert cut[0] == whole[0];
      assert SkipSpace(cut) == cut;
    }
  }
}
