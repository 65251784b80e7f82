/** gosrc/deploypath/path.go: the slug and the random suffix a deployment directory's name is made of. */
module Slug {
  import opened Text

  predicate SlugChar(c: char) {
    ('a' <= c <= 'z') || ('0' <= c <= '9')
  }

  /** unicode.ToLower as far as a slug can tell: besides A-Z only the Kelvin sign and the dotted capital I
      lower-case into ASCII; every other code point stays outside it. */
  function Lower(c: char): char {
    if 'A' <= c <= 'Z' then c - 'A' + 'a'
    else if c as int == 0x212A then 'k'
    else if c as int == 0x0130 then 'i'
    else c
  }

  function ToLower(s: string): (t: string)
    ensures |t| == |s| && forall i | 0 <= i < |s| :: t[i] == Lower(s[i])
  {
    seq(|s|, i requires 0 <= i < |s| => Lower(s[i]))
  }

  // ---------------------------------------------------------------- The reference: runs joined by dashes

  function FirstRun(s: string): (w: string)
    ensures w <= s && (|w| < |s| ==> !SlugChar(s[|w|]))
    ensures s != "" && SlugChar(s[0]) ==> w != ""
    ensures forall c | c in w :: SlugChar(c)
  {
    if s == "" || !SlugChar(s[0]) then "" else [s[0]] + FirstRun(s[1..])
  }

  /** The maximal runs of slug characters. */
  function Runs(s: string): seq<string>
    decreases |s|
  {
    if s == "" then []
    else if !SlugChar(s[0]) then Runs(s[1..])
    else
      var w := FirstRun(s);
      [w] + Runs(s[|w|..])
  }

  /** What a slug is: the runs of the lower-cased name with single dashes between them. */
  function SlugOf(name: string): string {
    var runs := Runs(TrimSpace(ToLower(name)));
    if runs == [] then "app" else Join(runs, "-")
  }

  ghost predicate Run(w: string) {
    w != "" && forall c | c in w :: SlugChar(c)
  }

  lemma {:induction false} RunsAreRuns(s: string)
    ensures forall w | w in Runs(s) :: Run(w)
    decreases |s|
  {
    if s == "" {
    } else if !SlugChar(s[0]) {
      RunsAreRuns(s[1..]);
    } else {
      RunsAreRuns(s[|FirstRun(s)|..]);
    }
  }

  lemma {:induction false} FirstRunOf(w: string, rest: string)
    requires forall c | c in w :: SlugChar(c)
    requires rest != "" ==> !SlugChar(rest[0])
    ensures FirstRun(w + rest) == w
  {
    if w == "" {
      assert w + rest == rest;
    } else {
      assert w[0] in w;
      assert (w + rest)[1..] == w[1..] + rest;
      FirstRunOf(w[1..], rest);
    }
  }

  /** A run followed by a dash, or by the end, is the first run. */
  lemma RunsOf(w: string, rest: string)
    requires Run(w) && (rest != "" ==> !SlugChar(rest[0]))
    ensures Runs(w + rest) == [w] + Runs(rest)
  {
    assert w[0] in w && (w + rest)[0] == w[0];
    FirstRunOf(w, rest);
    assert (w + rest)[|w|..] == rest;
  }

  lemma {:induction false} RunsJoin(runs: seq<string>)
    requires forall w | w in runs :: Run(w)
    ensures Runs(Join(runs, "-")) == runs
  {
    if runs == [] {
    } else if |runs| == 1 {
      RunsOf(runs[0], "");
      assert runs[0] + "" == runs[0];
      assert runs == [runs[0]];
    } else {
      var tail := Join(runs[1..], "-");
      RunsJoin(runs[1..]);
      RunsOf(runs[0], "-" + tail);
      assert ("-" + tail)[1..] == tail;
      assert runs[0] + "-" + tail == runs[0] + ("-" + tail);
      assert runs == [runs[0]] + runs[1..];
    }
  }

  /** Non-empty, over a-z, 0-9 and dash, without a leading, trailing or doubled dash. */
  ghost predicate IsSlug(s: string) {
    && s != "" && SlugChar(s[0]) && SlugChar(s[|s| - 1])
    && (forall c | c in s :: SlugChar(c) || c == '-')
    && (forall i | 0 <= i < |s| - 1 :: s[i] == '-' ==> s[i + 1] != '-')
  }

  lemma RunIsSlug(w: string)
    requires Run(w)
    ensures IsSlug(w)
  {
    assert w[0] in w && w[|w| - 1] in w;
    forall i | 0 <= i < |w| - 1 ensures w[i] == '-' ==> w[i + 1] != '-' { assert w[i] in w; }
  }

  lemma DashedIsSlug(w: string, s: string)
    requires Run(w) && IsSlug(s)
    ensures IsSlug(w + "-" + s)
  {
    RunIsSlug(w);
    var t := w + "-" + s;
    forall c | c in t ensures SlugChar(c) || c == '-' {
      assert c in w || c == '-' || c in s;
    }
    forall i | 0 <= i < |t| - 1 ensures t[i] == '-' ==> t[i + 1] != '-' {
      if i < |w| { assert t[i] == w[i] && w[i] in w; }
      else if i > |w| { assert t[i] == s[i - |w| - 1] && t[i + 1] == s[i - |w|]; }
    }
    assert t[|t| - 1] == s[|s| - 1];
  }

  lemma {:induction false} JoinIsSlug(runs: seq<string>)
    requires runs != [] && forall w | w in runs :: Run(w)
    ensures IsSlug(Join(runs, "-"))
  {
    assert runs[0] in runs;
    if |runs| == 1 {
      RunIsSlug(runs[0]);
    } else {
      JoinIsSlug(runs[1..]);
      DashedIsSlug(runs[0], Join(runs[1..], "-"));
    }
  }

  lemma SlugIsSlug(name: string)
    ensures IsSlug(SlugOf(name))
  {
    var runs := Runs(TrimSpace(ToLower(name)));
    RunsAreRuns(TrimSpace(ToLower(name)));
    if runs != [] { JoinIsSlug(runs); } else { RunIsSlug("app"); }
  }

  lemma SlugTextIsStable(s: string)
    requires IsSlug(s)
    ensures ToLower(s) == s && TrimSpace(s) == s
  {
    forall i | 0 <= i < |s| ensures Lower(s[i]) == s[i] { assert s[i] in s; }
  }

  /** A slug is its own slug. */
  lemma SlugIdempotent(name: string)
    ensures SlugOf(SlugOf(name)) == SlugOf(name)
  {
    var runs := Runs(TrimSpace(ToLower(name)));
    RunsAreRuns(TrimSpace(ToLower(name)));
    SlugIsSlug(name);
    SlugTextIsStable(SlugOf(name));
    if runs == [] {
      assert Join(["app"], "-") == "app";
      assert Run("app");
      RunsJoin(["app"]);
    } else {
      RunsJoin(runs);
    }
  }

  // ---------------------------------------------------------------- What a slug says of the name

  /** Upper-case letters become their lower-case ones, and nothing else that a slug may hold changes. */
  lemma LowerExactly(c: char, i: nat)
    ensures i < 26 ==> Lower('A' + i as char) == 'a' + i as char
    ensures SlugChar(c) ==> Lower(c) == c
    ensures SlugChar(Lower(c)) <==>
              SlugChar(c) || 'A' <= c <= 'Z' || c as int == 0x212A || c as int == 0x0130
  {
  }

  /** The text with a blank for every character that a slug may not hold. */
  function Blanked(s: string): (t: string)
    ensures |t| == |s| && forall i | 0 <= i < |s| :: t[i] == if SlugChar(s[i]) then s[i] else ' '
  {
    seq(|s|, i requires 0 <= i < |s| => if SlugChar(s[i]) then s[i] else ' ')
  }

  lemma BlankedAt(s: string, k: nat)
    requires k <= |s|
    ensures Blanked(s)[k..] == Blanked(s[k..]) && Blanked(s)[..k] == Blanked(s[..k])
  {
  }

  lemma {:induction false} FirstRunIsWord(s: string)
    ensures FirstWord(Blanked(s)) == FirstRun(s)
  {
    if s != "" && SlugChar(s[0]) {
      BlankedAt(s, 1);
      FirstRunIsWord(s[1..]);
    }
  }

  /** The runs are the fields of that text. */
  lemma {:induction false} RunsAreFields(s: string)
    ensures Runs(s) == Fields(Blanked(s))
    decreases |s|
  {
    if s != "" {
      if SlugChar(s[0]) {
        FirstRunIsWord(s);
        BlankedAt(s, |FirstRun(s)|);
        RunsAreFields(s[|FirstRun(s)|..]);
      } else {
        BlankedAt(s, 1);
        RunsAreFields(s[1..]);
      }
    }
  }

  lemma {:induction false} BlankedTrimLeft(s: string)
    ensures Fields(Blanked(TrimLeftSpace(s))) == Fields(Blanked(s))
  {
    if s != "" && IsSpace(s[0]) {
      BlankedAt(s, 1);
      BlankedTrimLeft(s[1..]);
    }
  }

  lemma {:induction false} BlankedTrimRight(s: string)
    ensures Fields(Blanked(TrimRightSpace(s))) == Fields(Blanked(s))
  {
    if s != "" && IsSpace(s[|s| - 1]) {
      var front := s[..|s| - 1];
      BlankedTrimRight(front);
      BlankedLast(s);
      FieldsTrailingSpace(Blanked(front), ' ');
    }
  }

  lemma BlankedLast(s: string)
    requires s != "" && IsSpace(s[|s| - 1])
    ensures Blanked(s) == Blanked(s[..|s| - 1]) + [' ']
  {
  }

  /** The slug of a name is its words in lower case, joined by dashes, where everything that a slug may not hold
      separates words; a name without any is called app. */
  lemma SlugWords(name: string)
    ensures SlugOf(name) ==
              if Fields(Blanked(ToLower(name))) == [] then "app" else Join(Fields(Blanked(ToLower(name))), "-")
  {
    RunsAreFields(TrimSpace(ToLower(name)));
    BlankedTrimLeft(ToLower(name));
    BlankedTrimRight(TrimLeftSpace(ToLower(name)));
  }

  // ---------------------------------------------------------------- The loop of the code

  /** What the builder receives from here on, given whether the last thing written was a dash. */
  function Dashed(s: string, lastDash: bool): string {
    if s == "" then ""
    else if SlugChar(s[0]) then [s[0]] + Dashed(s[1..], false)
    else if !lastDash then "-" + Dashed(s[1..], true)
    else Dashed(s[1..], true)
  }

  /** strings.Trim(s, "-"). */
  function TrimDashes(s: string): string
    decreases |s|
  {
    if s != "" && s[0] == '-' then TrimDashes(s[1..])
    else if s != "" && s[|s| - 1] == '-' then TrimDashes(s[..|s| - 1])
    else s
  }

  lemma {:induction false} DashedRun(w: string, rest: string, lastDash: bool)
    requires forall c | c in w :: SlugChar(c)
    ensures Dashed(w + rest, lastDash) == w + Dashed(rest, if w == "" then lastDash else false)
  {
    if w == "" {
      assert w + rest == rest;
    } else {
      assert w[0] in w;
      assert (w + rest)[1..] == w[1..] + rest;
      DashedRun(w[1..], rest, false);
      assert [w[0]] + (w[1..] + Dashed(rest, false)) == w + Dashed(rest, false);
    }
  }

  /** After a dash the builder receives the joined runs, and perhaps one last dash. */
  lemma {:induction false} DashedIsJoin(s: string)
    ensures Dashed(s, true) == Join(Runs(s), "-") || (Runs(s) != [] && Dashed(s, true) == Join(Runs(s), "-") + "-")
    decreases |s|
  {
    if s == "" {
    } else if !SlugChar(s[0]) {
      DashedIsJoin(s[1..]);
    } else {
      var w := FirstRun(s);
      var rest := s[|w|..];
      assert s == w + rest;
      DashedRun(w, rest, true);
      if rest == "" {
        assert w + "" == w;
      } else {
        DashedIsJoin(rest[1..]);
        var more := Runs(rest[1..]);
        assert Runs(rest) == more;
        assert Dashed(s, true) == w + ("-" + Dashed(rest[1..], true));
        assert ([w] + more)[1..] == more;
        if more == [] {
          assert w + ("-" + "") == w + "-";
        } else {
          assert w + ("-" + Join(more, "-")) == w + "-" + Join(more, "-");
          assert w + ("-" + (Join(more, "-") + "-")) == w + "-" + Join(more, "-") + "-";
        }
      }
    }
  }

  lemma TrimDashesAround(s: string)
    requires s == "" || (s[0] != '-' && s[|s| - 1] != '-')
    ensures TrimDashes(s) == s && TrimDashes("-" + s) == s && TrimDashes(s + "-") == s
            && TrimDashes("-" + (s + "-")) == s
  {
    assert ("-" + s)[1..] == s;
    assert (s + "-")[..|s|] == s;
    assert ("-" + (s + "-"))[1..] == s + "-";
    if s == "" {
      assert s + "-" == "-" + s;
    } else {
      assert (s + "-")[0] == s[0];
    }
  }

  lemma BuilderIsRuns(s: string)
    ensures TrimDashes(Dashed(s, false)) == Join(Runs(s), "-")
  {
    DashedIsJoin(s);
    RunsAreRuns(s);
    var j := Join(Runs(s), "-");
    if Runs(s) != [] { JoinIsSlug(Runs(s)); }
    TrimDashesAround(j);
    if s != "" && !SlugChar(s[0]) {
      DashedIsJoin(s[1..]);
    }
  }

  method Slugify(v: string) returns (slug: string)
    ensures slug == SlugOf(v)
  {
    var text := TrimSpace(ToLower(v));
    var out := "";
    var lastDash := false;
    for i := 0 to |text|
      invariant out + Dashed(text[i..], lastDash) == Dashed(text, false)
    {
      assert text[i..][1..] == text[i + 1..];
      if SlugChar(text[i]) {
        out := out + [text[i]];
        lastDash := false;
        continue;
      }
      if !lastDash {
        out := out + "-";
        lastDash := true;
      }
    }
    assert out + Dashed(text[|text|..], lastDash) == out;
    BuilderIsRuns(text);
    RunsAreRuns(text);
    if Runs(text) != [] { JoinIsSlug(Runs(text)); }
    var s := TrimDashes(out);
    assert s == Join(Runs(text), "-");
    if s == "" {
      return "app";
    }
    return s;
  }

  // ---------------------------------------------------------------- The suffix

  type Byte = n: nat | n < 256

  predicate HexChar(c: char) {
    ('0' <= c <= '9') || ('a' <= c <= 'f')
  }

  function HexDigit(n: nat): (c: char)
    requires n < 16
    ensures HexChar(c)
  {
    if n < 10 then '0' + n as char else 'a' + (n - 10) as char
  }

  /** hex.EncodeToString. */
  function HexEncode(buf: seq<Byte>): (s: string)
    ensures |s| == 2 * |buf| && forall c | c in s :: HexChar(c)
  {
    if buf == [] then ""
    else [HexDigit(buf[0] / 16), HexDigit(buf[0] % 16)] + HexEncode(buf[1..])
  }

  /** The value of a digit. */
  function HexValue(c: char): nat
    requires HexChar(c)
  {
    if c <= '9' then (c - '0') as nat else 10 + (c - 'a') as nat
  }

  /** Two digits for every byte, the high one first; so different bytes give different texts. */
  lemma {:induction false} HexEncodeExactly(buf: seq<Byte>, i: nat)
    requires i < |buf|
    ensures var s := HexEncode(buf);
            HexChar(s[2 * i]) && HexChar(s[2 * i + 1]) && 16 * HexValue(s[2 * i]) + HexValue(s[2 * i + 1]) == buf[i]
  {
    var s := HexEncode(buf);
    if i > 0 {
      HexEncodeExactly(buf[1..], i - 1);
      assert s[2..] == HexEncode(buf[1..]);
      assert s[2 * i] == s[2..][2 * (i - 1)] && s[2 * i + 1] == s[2..][2 * (i - 1) + 1];
    }
  }

  lemma HexInjective(a: seq<Byte>, b: seq<Byte>)
    requires HexEncode(a) == HexEncode(b)
    ensures a == b
  {
    forall i | 0 <= i < |a| ensures a[i] == b[i] {
      HexEncodeExactly(a, i);
      HexEncodeExactly(b, i);
    }
  }

  /** The buffer of length/2 + 1 bytes always holds enough digits, odd lengths included. */
  function RandomHex(length: nat, buf: seq<Byte>): (s: string)
    requires |buf| == length / 2 + 1
    ensures |s| == length && forall c | c in s :: HexChar(c)
    ensures s <= HexEncode(buf)
  {
    HexEncode(buf)[..length]
  }
}
