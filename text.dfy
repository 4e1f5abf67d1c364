/** The ASCII subset of Python's string methods that the adapters use:
    character classes, `lower`/`upper`, `isdigit`/`isalpha`/`isalnum`,
    `startswith`/`endswith`, `int()` of one character, `join`, `split`,
    `strip`, `replace` and `format` with one keyword argument. */
module Text {
  import opened Errors

  predicate IsDigit(c: char) { '0' <= c <= '9' }
  predicate IsUpper(c: char) { 'A' <= c <= 'Z' }
  predicate IsLower(c: char) { 'a' <= c <= 'z' }
  predicate IsAlpha(c: char) { IsUpper(c) || IsLower(c) }
  predicate IsAlnum(c: char) { IsAlpha(c) || IsDigit(c) }

  /** The characters `strip()` removes from the text of a parsed reply, up to
      U+00FF: space, tab, newline, vertical tab, form feed, carriage return,
      the separators U+001C to U+001F, next line U+0085 and no-break space
      U+00A0. */
  predicate IsSpace(c: char)
  {
    || c == ' ' || c == '\t' || c == '\n' || c == '\r'
    || 11 <= c as int <= 12 || 0x1C <= c as int <= 0x1F
    || c as int == 0x85 || c as int == 0xA0
  }

  function ToLower(c: char): (r: char)
    ensures IsUpper(c) ==> IsLower(r) && r as int == c as int + 32
    ensures !IsUpper(c) ==> r == c
  {
    if IsUpper(c) then (c as int + 32) as char else c
  }

  function ToUpper(c: char): (r: char)
    ensures IsLower(c) ==> IsUpper(r) && r as int + 32 == c as int
    ensures !IsLower(c) ==> r == c
  {
    if IsLower(c) then (c as int - 32) as char else c
  }

  /** `s.lower()` */
  function Lower(s: string): (r: string)
    ensures |r| == |s| && forall i :: 0 <= i < |s| ==> r[i] == ToLower(s[i])
  {
    seq(|s|, i requires 0 <= i < |s| => ToLower(s[i]))
  }

  /** `s.upper()` */
  function Upper(s: string): (r: string)
    ensures |r| == |s| && forall i :: 0 <= i < |s| ==> r[i] == ToUpper(s[i])
  {
    seq(|s|, i requires 0 <= i < |s| => ToUpper(s[i]))
  }

  /** `s.isdigit()`: false on the empty string. */
  predicate IsDigits(s: string) { |s| > 0 && forall i :: 0 <= i < |s| ==> IsDigit(s[i]) }
  /** `s.isalpha()` */
  predicate IsAlphas(s: string) { |s| > 0 && forall i :: 0 <= i < |s| ==> IsAlpha(s[i]) }
  /** `s.isalnum()` */
  predicate IsAlnums(s: string) { |s| > 0 && forall i :: 0 <= i < |s| ==> IsAlnum(s[i]) }

  predicate StartsWith(s: string, p: string) { |p| <= |s| && s[..|p|] == p }
  predicate EndsWith(s: string, p: string) { |p| <= |s| && s[|s| - |p|..] == p }

  /** The slice `s[i:j]` for `0 <= i <= j`, clipped to the string as Python does. */
  function Slice(s: string, i: nat, j: nat): (r: string)
    requires i <= j
    ensures |r| <= j - i
    ensures j <= |s| ==> r == s[i..j]
  {
    if i >= |s| then [] else if j >= |s| then s[i..] else s[i..j]
  }

  function DigitValue(c: char): (v: nat)
    requires IsDigit(c)
    ensures v <= 9
  {
    c as int - '0' as int
  }

  /** `int(s)` for a string of at most one character. */
  function IntOf(s: string): (r: Result<nat>)
    requires |s| <= 1
    ensures r.Ok? <==> |s| == 1 && IsDigit(s[0])
    ensures r.Ok? ==> r.value <= 9
    ensures r.Err? ==> r.error.cls == ValueError
  {
    if |s| == 1 && IsDigit(s[0]) then Ok(DigitValue(s[0]))
    else Err(Error(ValueError, "invalid literal for int() with base 10"))
  }

  /** The number a string of decimal digits denotes. */
  function DecimalValue(s: string): nat
    requires forall i :: 0 <= i < |s| ==> IsDigit(s[i])
    decreases |s|
  {
    if |s| == 0 then 0 else 10 * DecimalValue(s[..|s| - 1]) + DigitValue(s[|s| - 1])
  }

  /** `int(s)` for strings without sign or surrounding white space: ValueError
      unless `s` is a non-empty run of digits. */
  function ParseDecimal(s: string): (r: Result<nat>)
    ensures r.Ok? <==> IsDigits(s)
    ensures r.Ok? ==> r.value == DecimalValue(s)
    ensures r.Err? ==> r.error.cls == ValueError
  {
    if IsDigits(s) then Ok(DecimalValue(s))
    else Err(Error(ValueError, "invalid literal for int() with base 10"))
  }

  function DigitChar(d: nat): (c: char)
    requires d <= 9
    ensures IsDigit(c) && DigitValue(c) == d
  {
    ('0' as int + d) as char
  }

  /** `str(n)` for a natural number. */
  function ShowDecimal(n: nat): (r: string)
    ensures |r| > 0
    ensures forall i :: 0 <= i < |r| ==> IsDigit(r[i])
    decreases n
  {
    if n < 10 then [DigitChar(n)] else ShowDecimal(n / 10) + [DigitChar(n % 10)]
  }

  /** `int(str(n)) == n` */
  lemma {:induction false} ParseShowDecimal(n: nat)
    ensures ParseDecimal(ShowDecimal(n)) == Ok(n)
    decreases n
  {
    var r := ShowDecimal(n);
    if n < 10 {
      assert r[..|r| - 1] == [];
      assert DecimalValue(r) == 10 * DecimalValue([]) + DigitValue(r[0]);
    } else {
      ParseShowDecimal(n / 10);
      assert r[..|r| - 1] == ShowDecimal(n / 10);
    }
  }

  /** `s[-1:]`: the last character, or nothing for the empty string. */
  function LastChar(s: string): (r: string)
    ensures |r| == (if |s| == 0 then 0 else 1)
    ensures |s| > 0 ==> r[0] == s[|s| - 1]
  {
    if |s| == 0 then [] else [s[|s| - 1]]
  }

  /** `s[::-1]` */
  function Reverse(s: string): (r: string)
    ensures |r| == |s|
    ensures forall i :: 0 <= i < |s| ==> r[i] == s[|s| - 1 - i]
  {
    seq(|s|, i requires 0 <= i < |s| => s[|s| - 1 - i])
  }

  /** `sep.join(parts)` */
  function Join(parts: seq<string>, sep: string): string
  {
    if |parts| == 0 then []
    else if |parts| == 1 then parts[0]
    else parts[0] + sep + Join(parts[1..], sep)
  }

  /** `s.split(sep)` for a one-character separator. */
  function Split(s: string, sep: char): (r: seq<string>)
    ensures |r| >= 1
    decreases |s|
  {
    if |s| == 0 then [[]]
    else if s[0] == sep then [[]] + Split(s[1..], sep)
    else
      var rest := Split(s[1..], sep);
      [[s[0]] + rest[0]] + rest[1..]
  }

  /** No piece returned by `split` holds the separator. */
  lemma {:induction false} SplitPiecesLackSeparator(s: string, sep: char)
    ensures forall k :: 0 <= k < |Split(s, sep)| ==> sep !in Split(s, sep)[k]
    decreases |s|
  {
    if |s| > 0 {
      SplitPiecesLackSeparator(s[1..], sep);
    }
  }

  /** Joining the pieces with the separator gives back the string. */
  lemma {:induction false} JoinSplit(s: string, sep: char)
    ensures Join(Split(s, sep), [sep]) == s
    decreases |s|
  {
    if |s| > 0 {
      JoinSplit(s[1..], sep);
      var rest := Split(s[1..], sep);
      if s[0] != sep {
        if |rest| == 1 {
          assert Split(s, sep) == [[s[0]] + rest[0]];
        } else {
          assert Split(s, sep)[1..] == rest[1..];
          assert Join(rest, [sep]) == rest[0] + [sep] + Join(rest[1..], [sep]);
        }
      }
    }
  }

  /** How `split` treats the first character. */
  lemma SplitCons(c: char, t: string, sep: char)
    ensures Split([c] + t, sep) ==
      if c == sep then [[]] + Split(t, sep)
      else [[c] + Split(t, sep)[0]] + Split(t, sep)[1..]
  {
    assert ([c] + t)[0] == c && ([c] + t)[1..] == t;
  }

  /** `(a + sep + b).split(sep) == a.split(sep) + b.split(sep)` */
  lemma {:induction false} SplitAround(a: string, sep: char, b: string)
    ensures Split(a + [sep] + b, sep) == Split(a, sep) + Split(b, sep)
    decreases |a|
  {
    if |a| == 0 {
      var s := a + [sep] + b;
      assert s[0] == sep && s[1..] == b;
    } else {
      SplitAround(a[1..], sep, b);
      SplitAroundStep(a, sep, b);
    }
  }

  /** The step of `SplitAround`: from the string without its first character
      to the whole string. */
  lemma SplitAroundStep(a: string, sep: char, b: string)
    requires |a| > 0
    requires Split(a[1..] + [sep] + b, sep) == Split(a[1..], sep) + Split(b, sep)
    ensures Split(a + [sep] + b, sep) == Split(a, sep) + Split(b, sep)
  {
    if a[0] == sep {
      SplitAroundSeparatorFirst(a, sep, b);
    } else {
      SplitAroundOtherFirst(a, sep, b);
    }
  }

  lemma SplitAroundSeparatorFirst(a: string, sep: char, b: string)
    requires |a| > 0 && a[0] == sep
    requires Split(a[1..] + [sep] + b, sep) == Split(a[1..], sep) + Split(b, sep)
    ensures Split(a + [sep] + b, sep) == Split(a, sep) + Split(b, sep)
  {
    assert (a + [sep] + b)[1..] == a[1..] + [sep] + b;
    ConsAppend([], Split(a[1..], sep), Split(b, sep));
  }

  lemma ConcatAssoc<T>(a: seq<T>, b: seq<T>, c: seq<T>)
    ensures a + (b + c) == (a + b) + c
  {
  }

  lemma ConsAppend<T>(x: T, p: seq<T>, q: seq<T>)
    ensures ([x] + p) + q == [x] + (p + q)
  {
  }

  lemma SplitAroundOtherFirst(a: string, sep: char, b: string)
    requires |a| > 0 && a[0] != sep
    requires Split(a[1..] + [sep] + b, sep) == Split(a[1..], sep) + Split(b, sep)
    ensures Split(a + [sep] + b, sep) == Split(a, sep) + Split(b, sep)
  {
    var s := a + [sep] + b;
    assert s[0] == a[0] && s[1..] == a[1..] + [sep] + b;
    ExtendFirstPiece(a[0], Split(a[1..], sep), Split(b, sep));
  }

  /** Prepending a character to the first piece commutes with appending
      more pieces. */
  lemma ExtendFirstPiece(c: char, pieces: seq<string>, more: seq<string>)
    requires |pieces| >= 1
    ensures ([[c] + pieces[0]] + pieces[1..]) + more == [[c] + (pieces + more)[0]] + (pieces + more)[1..]
  {
    assert (pieces + more)[0] == pieces[0];
    assert (pieces + more)[1..] == pieces[1..] + more;
  }

  /** Two separator-free parts joined by the separator split back into them. */
  lemma SplitPair(a: string, sep: char, b: string)
    requires sep !in a && sep !in b
    ensures Split(a + [sep] + b, sep) == [a, b]
  {
    SplitAround(a, sep, b);
    SplitWithoutSeparator(a, sep);
    SplitWithoutSeparator(b, sep);
  }

  /** A string without the separator splits into itself alone. */
  lemma {:induction false} SplitWithoutSeparator(s: string, sep: char)
    requires sep !in s
    ensures Split(s, sep) == [s]
    decreases |s|
  {
    if |s| > 0 {
      assert s[1..] == s[1..] && sep !in s[1..] by {
        forall k | 0 <= k < |s[1..]| ensures s[1..][k] != sep { assert s[1..][k] == s[k + 1]; }
      }
      SplitWithoutSeparator(s[1..], sep);
      assert [s[0]] + s[1..] == s;
    }
  }

  /** Splitting a join of separator-free pieces gives back the pieces: the
      round trip that makes a comma-joined location readable field by field. */
  lemma {:induction false} SplitJoin(parts: seq<string>, sep: char)
    requires |parts| >= 1
    requires forall k :: 0 <= k < |parts| ==> sep !in parts[k]
    ensures Split(Join(parts, [sep]), sep) == parts
    decreases |parts|
  {
    SplitWithoutSeparator(parts[0], sep);
    if |parts| > 1 {
      SplitJoin(parts[1..], sep);
      SplitAround(parts[0], sep, Join(parts[1..], [sep]));
      assert parts == [parts[0]] + parts[1..];
    }
  }

  /** A join holds only the characters of its pieces and of the separator. */
  lemma {:induction false} JoinChars(parts: seq<string>, sep: string, c: char)
    requires c !in sep
    requires forall k :: 0 <= k < |parts| ==> c !in parts[k]
    ensures c !in Join(parts, sep)
    decreases |parts|
  {
    if |parts| > 1 {
      JoinChars(parts[1..], sep, c);
    }
  }

  function StripLeft(s: string): (r: string)
    ensures |r| <= |s| && r == s[|s| - |r|..]
    ensures forall k :: 0 <= k < |s| - |r| ==> IsSpace(s[k])
    ensures r != [] ==> !IsSpace(r[0])
    decreases |s|
  {
    if |s| > 0 && IsSpace(s[0]) then StripLeft(s[1..]) else s
  }

  function StripRight(s: string): (r: string)
    ensures |r| <= |s| && r == s[..|r|]
    ensures forall k :: |r| <= k < |s| ==> IsSpace(s[k])
    ensures r != [] ==> !IsSpace(r[|r| - 1])
    decreases |s|
  {
    if |s| > 0 && IsSpace(s[|s| - 1]) then StripRight(s[..|s| - 1]) else s
  }

  /** `s.strip()`: a slice of `s` that neither starts nor ends with white space. */
  function Strip(s: string): (r: string)
    ensures exists i, j :: 0 <= i <= j <= |s| && r == s[i..j]
                        && (forall k :: 0 <= k < i ==> IsSpace(s[k]))
                        && (forall k :: j <= k < |s| ==> IsSpace(s[k]))
    ensures r != [] ==> !IsSpace(r[0]) && !IsSpace(r[|r| - 1])
  {
    var l := StripLeft(s);
    var r := StripRight(l);
    assert r == l[..|r|] == s[|s| - |l|..][..|r|];
    assert s[|s| - |l|..][..|r|] == s[|s| - |l|..|s| - |l| + |r|];
    r
  }

  /** A string that neither starts nor ends with white space is its own strip. */
  lemma StripUnpadded(s: string)
    requires s != [] ==> !IsSpace(s[0]) && !IsSpace(s[|s| - 1])
    ensures Strip(s) == s
  {
  }

  /** Stripping twice strips nothing more. */
  lemma StripIdempotent(s: string)
    ensures Strip(Strip(s)) == Strip(s)
  {
    StripUnpadded(Strip(s));
  }

  /** `s.replace(pat, rep)`, scanning left to right without overlaps; an empty
      `old` inserts `new` before every character and at the end, as Python does. */
  function Replace(s: string, pat: string, rep: string): string
    decreases |s|
  {
    if |pat| == 0 then InsertEverywhere(s, rep)
    else if |s| < |pat| then s
    else if s[..|pat|] == pat then rep + Replace(s[|pat|..], pat, rep)
    else [s[0]] + Replace(s[1..], pat, rep)
  }

  function InsertEverywhere(s: string, rep: string): string
    decreases |s|
  {
    if |s| == 0 then rep else rep + [s[0]] + InsertEverywhere(s[1..], rep)
  }

  /** `sub` occurs in `s` at index `i`. */
  predicate OccursAt(s: string, sub: string, i: nat)
  {
    i + |sub| <= |s| && s[i..i + |sub|] == sub
  }

  /** `sub in s` */
  predicate Contains(s: string, sub: string)
  {
    exists i: nat | i <= |s| :: OccursAt(s, sub, i)
  }

  /** Replacing something that does not occur, or replacing anything by the
      empty string when it is itself empty, leaves the string as it was. */
  lemma {:induction false} ReplaceAbsent(s: string, pat: string, rep: string)
    requires |pat| > 0 ==> !Contains(s, pat)
    requires |pat| == 0 ==> rep == []
    ensures Replace(s, pat, rep) == s
    decreases |s|
  {
    if |pat| == 0 {
      InsertNothing(s);
    } else if |s| >= |pat| {
      assert !OccursAt(s, pat, 0);
      assert s[0..|pat|] == s[..|pat|];
      assert !Contains(s[1..], pat) by {
        forall i: nat | i <= |s[1..]| ensures !OccursAt(s[1..], pat, i) {
          assert !OccursAt(s, pat, i + 1);
          if i + |pat| <= |s[1..]| {
            assert s[1..][i..i + |pat|] == s[i + 1..i + 1 + |pat|];
          }
        }
      }
      ReplaceAbsent(s[1..], pat, rep);
      assert [s[0]] + s[1..] == s;
    }
  }

  /** A character that cannot start the pattern is kept, and the pattern
      right after it is replaced. */
  lemma ReplaceAfterChar(x: char, pat: string, rep: string, rest: string)
    requires |pat| > 0 && x != pat[0]
    ensures Replace([x] + pat + rest, pat, rep) == [x] + rep + Replace(rest, pat, rep)
  {
    var s := [x] + pat + rest;
    assert s[..|pat|][0] == x;
    assert s[1..] == pat + rest;
    assert (pat + rest)[..|pat|] == pat && (pat + rest)[|pat|..] == rest;
  }

  /** A string without the first character of `sub` does not contain `sub`. */
  lemma FirstCharAbsent(s: string, sub: string)
    requires |sub| > 0 && sub[0] !in s
    ensures !Contains(s, sub)
  {
    forall i: nat | i <= |s| ensures !OccursAt(s, sub, i) {
      if i + |sub| <= |s| {
        assert s[i..i + |sub|][0] == s[i];
      }
    }
  }

  lemma {:induction false} InsertNothing(s: string)
    ensures InsertEverywhere(s, []) == s
    decreases |s|
  {
    if |s| > 0 {
      InsertNothing(s[1..]);
      assert [s[0]] + s[1..] == s;
    }
  }

  /** Deleting occurrences never introduces a character. */
  lemma {:induction false} DeletionKeepsCharsOut(s: string, pat: string, c: char)
    requires c !in s
    ensures c !in Replace(s, pat, [])
    decreases |s|
  {
    if |pat| == 0 {
      InsertNothing(s);
    } else if |s| >= |pat| {
      if s[..|pat|] == pat {
        assert c !in s[|pat|..];
        DeletionKeepsCharsOut(s[|pat|..], pat, c);
      } else {
        assert c !in s[1..];
        DeletionKeepsCharsOut(s[1..], pat, c);
      }
    }
  }

  /** Stripping never introduces a character. */
  lemma StripKeepsCharsOut(s: string, c: char)
    requires c !in s
    ensures c !in Strip(s)
  {
    var i, j :| 0 <= i <= j <= |s| && Strip(s) == s[i..j];
    assert forall k :: 0 <= k < j - i ==> s[i..j][k] == s[i + k];
  }

  /** One piece of a `str.format` template: literal text or a `{name}` field. */
  datatype TemplatePart = Lit(text: string) | Field(name: string)

  /** One part of a template, formatted with the single keyword `name=value`. */
  function FormatPart(part: TemplatePart, name: string, value: string): (r: Result<string>)
    ensures r.Err? <==> part.Field? && part.name != name
  {
    match part
    case Lit(text) => Ok(text)
    case Field(n) => if n == name then Ok(value) else Err(Error(KeyError, n))
  }

  /** `template.format(name=value)`: every field must be `name`, otherwise
      Python raises KeyError for the missing keyword. */
  function Format(template: seq<TemplatePart>, name: string, value: string): (r: Result<string>)
    ensures r.Err? <==> exists k :: 0 <= k < |template| && template[k].Field? && template[k].name != name
    ensures r.Err? ==> r.error.cls == KeyError
  {
    if |template| == 0 then Ok([])
    else
      var head := FormatPart(template[0], name, value);
      var tail := Format(template[1..], name, value);
      assert forall k :: 1 <= k < |template| ==> template[k] == template[1..][k - 1];
      if head.Err? then head
      else if tail.Err? then tail
      else Ok(head.value + tail.value)
  }

  /** A template with one field between two literals substitutes the value. */
  lemma FormatOneField(before: string, name: string, after: string, value: string)
    ensures Format([Lit(before), Field(name), Lit(after)], name, value) == Ok(before + value + after)
  {
    var t := [Lit(before), Field(name), Lit(after)];
    var t1 := t[1..];
    var t2 := t1[1..];
    assert t1 == [Field(name), Lit(after)] && t2 == [Lit(after)] && t2[1..] == [];
    assert Format(t2[1..], name, value) == Ok([]);
    assert Format(t2, name, value) == Ok(after + []);
    assert Format(t1, name, value) == Ok(value + (after + []));
    assert Format(t, name, value) == Ok(before + (value + (after + [])));
    assert before + (value + (after + [])) == before + value + after;
  }

  /** A template without fields formats to its literal text whatever the value. */
  lemma {:induction false} FormatNoFields(template: seq<TemplatePart>, name: string, v1: string, v2: string)
    requires forall k :: 0 <= k < |template| ==> template[k].Lit?
    ensures Format(template, name, v1) == Format(template, name, v2)
    ensures Format(template, name, v1).Ok?
    decreases |template|
  {
    if |template| > 0 {
      FormatNoFields(template[1..], name, v1, v2);
    }
  }
}
