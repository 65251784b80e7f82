/** The parts of Go's `strings` package that the text and path layers lean on, over sequences of
    code points, with the laws those layers need: split and join are inverse, fields survive
    re-joining, and a string never loses an occurrence when text is added around it. */
module Text {

  /** Go's unicode.IsSpace. */
  predicate IsSpace(c: char) {
    var n := c as int;
    || 0x09 <= n <= 0x0D || n == 0x20 || n == 0x85 || n == 0xA0 || n == 0x1680
    || 0x2000 <= n <= 0x200A || n == 0x2028 || n == 0x2029 || n == 0x202F || n == 0x205F || n == 0x3000
  }

  predicate Blank(s: string) {
    forall c | c in s :: IsSpace(c)
  }

  /** A non-empty run without white space: what Fields cuts a string into. */
  predicate Word(s: string) {
    s != "" && forall c | c in s :: !IsSpace(c)
  }

  ghost predicate Contains(s: string, sub: string) {
    exists i :: OccursAt(s, sub, i)
  }

  ghost predicate OccursAt(s: string, sub: string, i: int) {
    0 <= i <= |s| - |sub| && s[i..i + |sub|] == sub
  }

  lemma ContainsInside(before: string, s: string, after: string, sub: string)
    requires Contains(s, sub)
    ensures Contains(before + s + after, sub)
  {
    var i :| OccursAt(s, sub, i);
    var t := before + s + after;
    assert t[|before| + i..|before| + i + |sub|] == s[i..i + |sub|];
    assert OccursAt(t, sub, |before| + i);
  }

  // ---------------------------------------------------------------- Split and Join

  function Join(parts: seq<string>, sep: string): string {
    if parts == [] then ""
    else if |parts| == 1 then parts[0]
    else parts[0] + sep + Join(parts[1..], sep)
  }

  /** strings.Split on a one-character separator. */
  function Split(s: string, sep: char): (parts: seq<string>)
    ensures |parts| >= 1
  {
    if s == "" then [""] else Prepend(s[0], sep, Split(s[1..], sep))
  }

  function Prepend(c: char, sep: char, rest: seq<string>): (parts: seq<string>)
    requires |rest| >= 1
    ensures |parts| >= 1
  {
    if c == sep then [""] + rest else [[c] + rest[0]] + rest[1..]
  }

  lemma {:induction false} JoinSplit(s: string, sep: char)
    ensures Join(Split(s, sep), [sep]) == s
  {
    if s != "" {
      JoinSplit(s[1..], sep);
      var rest := Split(s[1..], sep);
      assert s == [s[0]] + s[1..];
      if s[0] == sep {
        assert ([""] + rest)[1..] == rest;
      } else {
        var parts := [[s[0]] + rest[0]] + rest[1..];
        assert Split(s, sep) == parts;
        if |rest| == 1 {
        } else {
          assert parts[1..] == rest[1..];
          assert [s[0]] + (rest[0] + [sep] + Join(rest[1..], [sep])) ==
                 ([s[0]] + rest[0]) + [sep] + Join(rest[1..], [sep]);
        }
      }
    }
  }

  lemma {:induction false} SplitHasNoSeparator(s: string, sep: char)
    ensures forall p | p in Split(s, sep) :: sep !in p
  {
    if s != "" {
      SplitHasNoSeparator(s[1..], sep);
      var rest := Split(s[1..], sep);
      assert rest[0] in rest;
      forall p | p in Split(s, sep) ensures sep !in p {
        if s[0] == sep {
          assert p == "" || p in rest;
        } else {
          assert p == [s[0]] + rest[0] || p in rest[1..];
          if p in rest[1..] { assert p in rest; }
        }
      }
    }
  }

  lemma PrependAppend(c: char, sep: char, a: seq<string>, b: seq<string>)
    requires |a| >= 1
    ensures Prepend(c, sep, a + b) == Prepend(c, sep, a) + b
  {
    assert (a + b)[0] == a[0] && (a + b)[1..] == a[1..] + b;
  }

  lemma {:induction false} SplitAppend(a: string, sep: char, b: string)
    ensures Split(a + [sep] + b, sep) == Split(a, sep) + Split(b, sep)
  {
    var s := a + [sep] + b;
    if a == "" {
      assert s[1..] == b;
    } else {
      SplitAppend(a[1..], sep, b);
      assert s[1..] == a[1..] + [sep] + b;
      PrependAppend(a[0], sep, Split(a[1..], sep), Split(b, sep));
    }
  }

  lemma {:induction false} SplitOne(p: string, sep: char)
    requires sep !in p
    ensures Split(p, sep) == [p]
  {
    if p != "" {
      SplitOne(p[1..], sep);
      assert p == [p[0]] + p[1..];
    }
  }

  lemma {:induction false} SplitJoin(parts: seq<string>, sep: char)
    requires parts != [] && forall p | p in parts :: sep !in p
    ensures Split(Join(parts, [sep]), sep) == parts
  {
    SplitOne(parts[0], sep);
    if |parts| > 1 {
      SplitJoin(parts[1..], sep);
      SplitAppend(parts[0], sep, Join(parts[1..], [sep]));
      assert parts == [parts[0]] + parts[1..];
    } else {
      assert parts == [parts[0]];
    }
  }

  lemma Regroup(x: string, y: string, z: string, sep: string)
    ensures x + sep + (y + sep + z) == x + sep + y + sep + z
  {
  }

  lemma {:induction false} JoinAppend(a: seq<string>, b: seq<string>, sep: string)
    requires a != [] && b != []
    ensures Join(a + b, sep) == Join(a, sep) + sep + Join(b, sep)
  {
    if |a| == 1 {
      assert (a + b)[1..] == b;
    } else {
      JoinAppend(a[1..], b, sep);
      assert (a + b)[1..] == a[1..] + b;
      Regroup(a[0], Join(a[1..], sep), Join(b, sep), sep);
    }
  }

  // ---------------------------------------------------------------- Trim

  /** strings.TrimLeftFunc(s, IsSpace). */
  function TrimLeftSpace(s: string): (t: string)
    ensures t != "" ==> !IsSpace(t[0])
  {
    if s != "" && IsSpace(s[0]) then TrimLeftSpace(s[1..]) else s
  }

  function TrimRightSpace(s: string): (t: string)
    ensures t <= s
    ensures t != "" ==> !IsSpace(t[|t| - 1])
  {
    if s != "" && IsSpace(s[|s| - 1]) then TrimRightSpace(s[..|s| - 1]) else s
  }

  /** strings.TrimSpace. */
  function TrimSpace(s: string): string {
    TrimRightSpace(TrimLeftSpace(s))
  }

  // ---------------------------------------------------------------- Fields

  /** The longest prefix without white space. */
  function FirstWord(s: string): (w: string)
    ensures w <= s
    ensures |w| < |s| ==> IsSpace(s[|w|])
    ensures s != "" && !IsSpace(s[0]) ==> w != ""
  {
    if s == "" || IsSpace(s[0]) then "" else [s[0]] + FirstWord(s[1..])
  }

  /** strings.Fields. */
  function Fields(s: string): seq<string>
    decreases |s|
  {
    if s == "" then []
    else if IsSpace(s[0]) then Fields(s[1..])
    else
      var w := FirstWord(s);
      [w] + Fields(s[|w|..])
  }

  lemma {:induction false} FirstWordIsWord(s: string)
    requires s != "" && !IsSpace(s[0])
    ensures Word(FirstWord(s))
  {
    if |s| > 1 && !IsSpace(s[1]) {
      FirstWordIsWord(s[1..]);
    }
  }

  lemma {:induction false} FieldsAreWords(s: string)
    ensures forall w | w in Fields(s) :: Word(w)
    decreases |s|
  {
    if s == "" {
    } else if IsSpace(s[0]) {
      FieldsAreWords(s[1..]);
    } else {
      FirstWordIsWord(s);
      FieldsAreWords(s[|FirstWord(s)|..]);
    }
  }

  lemma {:induction false} FieldsSkipBlank(b: string, s: string)
    requires Blank(b)
    ensures Fields(b + s) == Fields(s)
  {
    if b == "" {
      assert b + s == s;
    } else {
      assert b[0] in b;
      assert (b + s)[1..] == b[1..] + s;
      FieldsSkipBlank(b[1..], s);
    }
  }

  lemma FieldsBlank(b: string)
    requires Blank(b)
    ensures Fields(b) == []
  {
    FieldsSkipBlank(b, "");
    assert b + "" == b;
  }

  lemma {:induction false} FirstWordOf(w: string, rest: string)
    requires forall c | c in w :: !IsSpace(c)
    requires rest != "" ==> IsSpace(rest[0])
    ensures FirstWord(w + rest) == w
  {
    if w == "" {
      assert w + rest == rest;
    } else {
      assert w[0] in w;
      assert (w + rest)[1..] == w[1..] + rest;
      FirstWordOf(w[1..], rest);
    }
  }

  /** A word followed by white space, or by the end, is the first field. */
  lemma FieldsWord(w: string, rest: string)
    requires Word(w) && (rest != "" ==> IsSpace(rest[0]))
    ensures Fields(w + rest) == [w] + Fields(rest)
  {
    var s := w + rest;
    assert w[0] in w;
    assert s[0] == w[0];
    FirstWordOf(w, rest);
    assert s[|w|..] == rest;
  }

  lemma {:induction false} FieldsTrailingSpace(s: string, c: char)
    requires IsSpace(c)
    ensures Fields(s + [c]) == Fields(s)
    decreases |s|
  {
    if s == "" {
      assert s + [c] == [c];
      FieldsBlank([c]);
    } else if IsSpace(s[0]) {
      assert (s + [c])[1..] == s[1..] + [c];
      FieldsTrailingSpace(s[1..], c);
    } else {
      var w := FirstWord(s);
      var rest := s[|w|..];
      FirstWordIsWord(s);
      FieldsTrailingSpace(rest, c);
      assert s + [c] == w + (rest + [c]);
      assert (rest + [c])[0] == if rest == "" then c else rest[0];
      FieldsWord(w, rest + [c]);
    }
  }

  lemma {:induction false} FieldsTrimLeft(s: string)
    ensures Fields(TrimLeftSpace(s)) == Fields(s)
  {
    if s != "" && IsSpace(s[0]) {
      FieldsTrimLeft(s[1..]);
    }
  }

  lemma {:induction false} FieldsTrimRight(s: string)
    ensures Fields(TrimRightSpace(s)) == Fields(s)
  {
    if s != "" && IsSpace(s[|s| - 1]) {
      FieldsTrimRight(s[..|s| - 1]);
      FieldsTrailingSpace(s[..|s| - 1], s[|s| - 1]);
      assert s == s[..|s| - 1] + [s[|s| - 1]];
    }
  }

  /** Trimming never changes the fields. */
  lemma FieldsTrimSpace(s: string)
    ensures Fields(TrimSpace(s)) == Fields(s)
  {
    FieldsTrimLeft(s);
    FieldsTrimRight(TrimLeftSpace(s));
  }

  /** Words joined by single spaces come back as the same words. */
  lemma {:induction false} FieldsJoin(words: seq<string>)
    requires forall w | w in words :: Word(w)
    ensures Fields(Join(words, " ")) == words
  {
    if words == [] {
    } else if |words| == 1 {
      assert words[0] + "" == words[0];
      FieldsWord(words[0], "");
      assert words == [words[0]];
    } else {
      var tail := Join(words[1..], " ");
      FieldsJoin(words[1..]);
      FieldsSkipBlank(" ", tail);
      FieldsWord(words[0], " " + tail);
      assert words[0] + " " + tail == words[0] + (" " + tail);
      assert words == [words[0]] + words[1..];
    }
  }

  // ---------------------------------------------------------------- Lines, replacement, numbers

  /** strings.ReplaceAll for single characters. */
  function Replace(s: string, from: char, to: char): (t: string)
    ensures |t| == |s|
    ensures forall i | 0 <= i < |s| :: t[i] == if s[i] == from then to else s[i]
  {
    if s == "" then "" else [if s[0] == from then to else s[0]] + Replace(s[1..], from, to)
  }

  function Digit(n: nat): char
    requires n < 10
  {
    '0' + n as char
  }

  /** strconv.Itoa, and fmt's %d. */
  function Itoa(n: int): (s: string)
    ensures Word(s) && forall c | c in s :: c == '-' || '0' <= c <= '9'
    decreases n < 0, if n < 0 then -n else n
  {
    if n < 0 then "-" + Itoa(-n)
    else if n < 10 then [Digit(n)]
    else Itoa(n / 10) + [Digit(n % 10)]
  }

  predicate Numeral(s: string) {
    forall i | 0 <= i < |s| :: '0' <= s[i] <= '9'
  }

  /** The value of a run of decimal digits. */
  function Decimal(s: string): nat
    requires Numeral(s)
  {
    if s == "" then 0 else 10 * Decimal(s[..|s| - 1]) + (s[|s| - 1] - '0') as nat
  }

  /** A number is printed by its digits, without leading zeros, and behind a minus if it is negative. */
  lemma {:induction false} ItoaExactly(n: int)
    ensures n < 0 ==> Itoa(n) == "-" + Itoa(-n)
    ensures n >= 0 ==> Numeral(Itoa(n)) && Decimal(Itoa(n)) == n
    ensures n > 0 ==> Itoa(n)[0] != '0'
    decreases n < 0, if n < 0 then -n else n
  {
    if n >= 10 {
      var front, last := Itoa(n / 10), Digit(n % 10);
      ItoaExactly(n / 10);
      assert Itoa(n)[..|Itoa(n)| - 1] == front && Itoa(n)[|Itoa(n)| - 1] == last;
    } else if n >= 0 {
      assert Itoa(n) == [Digit(n)];
    }
  }

  lemma {:induction false} ItoaInjective(a: int, b: int)
    requires Itoa(a) == Itoa(b)
    ensures a == b
    decreases a < 0, if a < 0 then -a else a
  {
    if a >= 0 { ItoaFirst(a); }
    if b >= 0 { ItoaFirst(b); }
    if a < 0 && b < 0 {
      assert Itoa(a)[1..] == Itoa(-a) && Itoa(b)[1..] == Itoa(-b);
      ItoaInjective(-a, -b);
    } else if a >= 10 && b >= 10 {
      var s := Itoa(a);
      assert s[..|s| - 1] == Itoa(a / 10) && s[..|s| - 1] == Itoa(b / 10);
      assert s[|s| - 1] == Digit(a % 10) == Digit(b % 10);
      ItoaInjective(a / 10, b / 10);
    }
  }

  lemma {:induction false} ItoaFirst(n: nat)
    ensures Itoa(n) != "" && Itoa(n)[0] != '-'
  {
    if n >= 10 { ItoaFirst(n / 10); }
  }
}
