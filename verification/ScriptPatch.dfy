/** gosrc/actions/patchInstallScript.go: the two passes that rewrite a user's shell script before it
    runs. Pass 1 puts `set -e` after the shebang; pass 2 makes `-A` the first argument of every sudo line. */
module ScriptPatch {
  import opened Wrappers
  import opened Text

  // ---------------------------------------------------------------- Pass 2: one line

  /** strings.TrimLeft(s, " \t"). */
  function TrimLeftBlanks(s: string): (t: string)
    ensures |t| <= |s|
  {
    if s != "" && (s[0] == ' ' || s[0] == '\t') then TrimLeftBlanks(s[1..]) else s
  }

  function Leading(line: string): string {
    line[..|line| - |TrimLeftBlanks(line)|]
  }

  predicate IsSudoCommandLine(line: string) {
    var trimmed := TrimSpace(line);
    !("#" <= trimmed) && (trimmed == "sudo" || "sudo " <= trimmed)
  }

  function TrimPrefix(s: string, prefix: string): string {
    if prefix <= s then s[|prefix|..] else s
  }

  function AfterSudo(line: string): string {
    TrimLeftBlanks(TrimPrefix(TrimSpace(line), "sudo"))
  }

  predicate SudoHasAImmediately(line: string) {
    var rest := AfterSudo(line);
    rest == "-A" || "-A " <= rest
  }

  /** The lines pass 2 rewrites. */
  predicate LacksA(line: string) {
    IsSudoCommandLine(line) && !SudoHasAImmediately(line)
  }

  function Without(tokens: seq<string>, t: string): (kept: seq<string>)
    ensures t !in kept
  {
    if tokens == [] then []
    else if tokens[0] == t then Without(tokens[1..], t)
    else [tokens[0]] + Without(tokens[1..], t)
  }

  /** The documented token rule: `sudo -A`, then the line's other arguments in order. */
  function RuleTokens(line: string): seq<string>
    requires Fields(line) != []
  {
    ["sudo", "-A"] + Without(Fields(line)[1..], "-A")
  }

  function FixedLine(line: string): string {
    if LacksA(line) && Fields(line) != [] then Leading(line) + Join(RuleTokens(line), " ") else line
  }

  /** Removing a token keeps the others, in order. */
  lemma {:induction false} WithoutExactly(tokens: seq<string>, more: seq<string>, t: string, x: string)
    ensures Without(tokens + more, t) == Without(tokens, t) + Without(more, t)
    ensures Without([x], t) == if x == t then [] else [x]
  {
    if tokens == [] {
      assert tokens + more == more;
    } else {
      assert (tokens + more)[1..] == tokens[1..] + more;
      WithoutExactly(tokens[1..], more, t, x);
    }
  }

  lemma {:induction false} LeadingIsBlank(s: string)
    ensures Blank(Leading(s)) && '\n' !in Leading(s)
  {
    if s != "" && (s[0] == ' ' || s[0] == '\t') {
      LeadingIsBlank(s[1..]);
      assert Leading(s) == [s[0]] + Leading(s[1..]);
    }
  }

  lemma {:induction false} TrimLeftBlanksFields(s: string)
    ensures Fields(TrimLeftBlanks(s)) == Fields(s)
  {
    if s != "" && (s[0] == ' ' || s[0] == '\t') { TrimLeftBlanksFields(s[1..]); }
  }

  /** A sudo line's fields are `sudo` and then the fields of what follows it. */
  lemma SudoFields(line: string)
    requires IsSudoCommandLine(line)
    ensures Fields(line) == ["sudo"] + Fields(AfterSudo(line))
  {
    var trimmed := TrimSpace(line);
    assert "sudo" <= trimmed && (|trimmed| > 4 ==> trimmed[4] == ' ');
    var rest := trimmed[4..];
    assert trimmed == "sudo" + rest && (rest != "" ==> rest[0] == trimmed[4]);
    assert Word("sudo");
    FieldsTrimSpace(line);
    FieldsWord("sudo", rest);
    TrimLeftBlanksFields(rest);
  }

  /** What counts as a sudo line: the first field is `sudo`, and a blank or nothing follows it. */
  lemma SudoLineExactly(line: string)
    ensures IsSudoCommandLine(line) <==>
              && Fields(line) != [] && Fields(line)[0] == "sudo"
              && (TrimSpace(line) == "sudo" || (|TrimSpace(line)| > 4 && TrimSpace(line)[4] == ' '))
  {
    if IsSudoCommandLine(line) {
      SudoFields(line);
    }
    if Fields(line) != [] && Fields(line)[0] == "sudo" {
      TrimmedStartsWithField(line);
      StartsWithSudo(TrimSpace(line));
    }
  }

  lemma StartsWithSudo(trimmed: string)
    requires "sudo" <= trimmed
    ensures !("#" <= trimmed)
    ensures "sudo " <= trimmed <==> |trimmed| > 4 && trimmed[4] == ' '
  {
    assert trimmed[..4] == "sudo" && trimmed[0] == "sudo"[0];
    if |trimmed| > 4 { assert trimmed[..5] == "sudo" + [trimmed[4]]; }
  }

  lemma TrimmedStartsWithField(line: string)
    requires Fields(line) != []
    ensures Fields(line)[0] <= TrimSpace(line)
  {
    var trimmed := TrimSpace(line);
    FieldsTrimSpace(line);
    assert trimmed != "" && !IsSpace(trimmed[0]) by {
      var left := TrimLeftSpace(line);
      assert trimmed <= left;
    }
    assert Fields(trimmed)[0] == FirstWord(trimmed);
  }

  /** A sudo invocation the patch leaves as it is: `sudo` followed by a tab. */
  lemma SudoTabIsMissed(rest: string)
    requires rest != "" && !IsSpace(rest[|rest| - 1])
    ensures var line := "sudo" + ("\t" + rest);
            Fields(line) != [] && Fields(line)[0] == "sudo" && !IsSudoCommandLine(line) && FixedLine(line) == line
  {
    var line := "sudo" + ("\t" + rest);
    assert Word("sudo") && ("\t" + rest)[0] == '\t';
    FieldsWord("sudo", "\t" + rest);
    assert line[0] == 's' && line[|line| - 1] == rest[|rest| - 1] && line[4] == '\t';
    NothingToTrim(line);
    SudoLineExactly(line);
  }

  /** And another: `sudo` that is not the first word of its line, as in `a && sudo b`. */
  lemma LaterSudoIsMissed(first: string, rest: string)
    requires Word(first) && first != "sudo"
    ensures var line := first + (" " + rest);
            !IsSudoCommandLine(line) && FixedLine(line) == line
  {
    var line := first + (" " + rest);
    assert (" " + rest)[0] == ' ';
    FieldsWord(first, " " + rest);
    SudoLineExactly(line);
  }

  lemma NothingToTrim(s: string)
    requires s != "" && !IsSpace(s[0]) && !IsSpace(s[|s| - 1])
    ensures TrimSpace(s) == s
  {
  }

  lemma {:induction false} WithoutKeepsWords(tokens: seq<string>, t: string)
    requires forall w | w in tokens :: Word(w)
    ensures forall w | w in Without(tokens, t) :: Word(w)
  {
    if tokens != [] { WithoutKeepsWords(tokens[1..], t); }
  }

  lemma RuleTokensAreWords(line: string)
    requires Fields(line) != []
    ensures forall w | w in RuleTokens(line) :: Word(w)
  {
    FieldsAreWords(line);
    WithoutKeepsWords(Fields(line)[1..], "-A");
  }

  /** The first k characters are the indentation. */
  predicate IndentedBy(line: string, k: int) {
    && 0 <= k <= |line| && (forall i | 0 <= i < k :: line[i] in " \t") && (k < |line| ==> line[k] !in " \t")
  }

  lemma {:induction false} LeadingIndents(s: string)
    ensures IndentedBy(s, |Leading(s)|) && Leading(s) == s[..|Leading(s)|]
  {
    if s != "" && (s[0] == ' ' || s[0] == '\t') {
      LeadingIndents(s[1..]);
      assert Leading(s) == [s[0]] + Leading(s[1..]);
    }
  }

  /** Every rewritten line has exactly the tokens of the rule, one blank apart, behind its indentation. */
  lemma RewrittenTokens(line: string)
    requires LacksA(line)
    ensures Fields(line) != [] && Fields(line)[0] == "sudo"
    ensures Fields(FixedLine(line)) == RuleTokens(line)
    ensures exists k :: IndentedBy(line, k) && FixedLine(line) == line[..k] + Join(RuleTokens(line), " ")
  {
    LeadingIndents(line);
    SudoFields(line);
    RuleTokensAreWords(line);
    FieldsJoin(RuleTokens(line));
    LeadingIsBlank(line);
    FieldsSkipBlank(Leading(line), Join(RuleTokens(line), " "));
  }

  lemma {:induction false} TrimLeftOf(b: string, t: string)
    requires Blank(b) && t != "" && !IsSpace(t[0])
    ensures TrimLeftSpace(b + t) == t
  {
    if b == "" {
      assert b + t == t;
    } else {
      assert b[0] in b && (b + t)[1..] == b[1..] + t;
      TrimLeftOf(b[1..], t);
    }
  }

  lemma {:induction false} JoinEndsInWord(words: seq<string>)
    requires words != [] && forall w | w in words :: Word(w)
    ensures var s := Join(words, " "); s != "" && !IsSpace(s[|s| - 1])
  {
    var w := words[0];
    assert w in words && w[|w| - 1] in w;
    if |words| > 1 { JoinEndsInWord(words[1..]); }
  }

  lemma RuleText(filtered: seq<string>)
    ensures Join(["sudo", "-A"] + filtered, " ") ==
            "sudo" + (" " + (if filtered == [] then "-A" else "-A " + Join(filtered, " ")))
  {
    var words := ["sudo", "-A"] + filtered;
    assert words[1..] == ["-A"] + filtered;
    assert words[1..][1..] == filtered;
  }

  lemma SettledShape(line: string, args: string)
    requires TrimSpace(line) == "sudo" + (" " + args)
    requires args == "-A" || "-A " <= args
    ensures IsSudoCommandLine(line) && SudoHasAImmediately(line)
  {
    var trimmed := TrimSpace(line);
    assert trimmed[4] == ' ' && trimmed[4..] == " " + args;
    assert (" " + args)[1..] == args;
    assert args[0] == '-';
    assert TrimLeftBlanks(args) == args;
    assert TrimLeftBlanks(" " + args) == args;
  }

  lemma TrimRewritten(line: string, t: string)
    requires t != "" && !IsSpace(t[0]) && !IsSpace(t[|t| - 1])
    ensures TrimSpace(Leading(line) + t) == t
  {
    LeadingIsBlank(line);
    TrimLeftOf(Leading(line), t);
  }

  /** A rewritten line is a sudo line that needs no further rewriting. */
  lemma RewrittenIsSettled(line: string)
    requires LacksA(line)
    ensures IsSudoCommandLine(FixedLine(line)) && SudoHasAImmediately(FixedLine(line))
    ensures FixedLine(line) != line
  {
    SudoFields(line);
    RuleTokensAreWords(line);
    var kept := Without(Fields(line)[1..], "-A");
    var args := if kept == [] then "-A" else "-A " + Join(kept, " ");
    RuleText(kept);
    JoinEndsInWord(RuleTokens(line));
    TrimRewritten(line, Join(RuleTokens(line), " "));
    SettledShape(FixedLine(line), args);
  }

  lemma FixedLineIdempotent(line: string)
    ensures FixedLine(FixedLine(line)) == FixedLine(line)
    ensures FixedLine(line) != line <==> LacksA(line)
  {
    if LacksA(line) { RewrittenIsSettled(line); }
  }

  /** A line that pass 2 leaves alone because -A is in place has -A as its first argument token. */
  lemma SettledTokens(line: string)
    requires IsSudoCommandLine(line) && SudoHasAImmediately(line)
    ensures |Fields(line)| >= 2 && Fields(line)[0] == "sudo" && Fields(line)[1] == "-A"
  {
    SudoFields(line);
    var rest := AfterSudo(line);
    assert rest == "-A" + rest[2..];
    FieldsWord("-A", rest[2..]);
  }

  lemma {:induction false} JoinHasNoNewline(words: seq<string>)
    requires forall w | w in words :: Word(w)
    ensures '\n' !in Join(words, " ")
  {
    if words != [] {
      assert words[0] in words;
      JoinHasNoNewline(words[1..]);
    }
  }

  lemma FixedLineStaysOneLine(line: string)
    requires '\n' !in line
    ensures '\n' !in FixedLine(line)
  {
    if LacksA(line) && Fields(line) != [] {
      LeadingIsBlank(line);
      RuleTokensAreWords(line);
      JoinHasNoNewline(RuleTokens(line));
    }
  }

  /** The two texts moveSudoAToFront can return. */
  lemma MovedText(line: string, filtered: seq<string>)
    requires Fields(line) != [] && filtered == Without(Fields(line)[1..], "-A")
    ensures filtered == [] ==> Leading(line) + "sudo -A" == Leading(line) + Join(RuleTokens(line), " ")
    ensures filtered != [] ==>
            Leading(line) + "sudo -A " + Join(filtered, " ") == Leading(line) + Join(RuleTokens(line), " ")
  {
    RuleText(filtered);
    assert Leading(line) + "sudo -A " + Join(filtered, " ") == Leading(line) + ("sudo -A " + Join(filtered, " "));
  }

  /** The loop of moveSudoAToFront. */
  method FilterA(tokens: seq<string>) returns (filtered: seq<string>)
    ensures filtered == Without(tokens, "-A")
  {
    filtered := [];
    for i := 0 to |tokens|
      invariant filtered + Without(tokens[i..], "-A") == Without(tokens, "-A")
    {
      assert tokens[i..][1..] == tokens[i + 1..];
      if tokens[i] == "-A" { continue; }
      filtered := filtered + [tokens[i]];
    }
  }

  /** moveSudoAToFront builds the rule's tokens behind the line's own indentation. */
  method MoveSudoAToFront(line: string) returns (fixed: string)
    requires IsSudoCommandLine(line)
    ensures Fields(line) != [] && fixed == Leading(line) + Join(RuleTokens(line), " ")
  {
    var leading := line[..|line| - |TrimLeftBlanks(line)|];
    var tokens := Fields(AfterSudo(line));
    SudoFields(line);
    var filtered := FilterA(tokens);
    assert Fields(line)[1..] == tokens;
    MovedText(line, filtered);
    if |filtered| == 0 {
      return leading + "sudo -A";
    }
    return leading + "sudo -A " + Join(filtered, " ");
  }

  // ---------------------------------------------------------------- Pass 2: the text

  function FixedLines(lines: seq<string>): (fixed: seq<string>)
    ensures |fixed| == |lines| && forall i | 0 <= i < |lines| :: fixed[i] == FixedLine(lines[i])
  {
    seq(|lines|, i requires 0 <= i < |lines| => FixedLine(lines[i]))
  }

  function NormalizedText(content: string): string {
    Join(FixedLines(Split(content, '\n')), "\n")
  }

  /** Line by line, and nothing but line by line. */
  lemma NormalizedLines(content: string)
    ensures Split(NormalizedText(content), '\n') == FixedLines(Split(content, '\n'))
  {
    var lines := Split(content, '\n');
    var fixed := FixedLines(lines);
    SplitHasNoSeparator(content, '\n');
    forall p | p in fixed ensures '\n' !in p {
      var i :| 0 <= i < |fixed| && fixed[i] == p;
      FixedLineStaysOneLine(lines[i]);
    }
    SplitJoin(fixed, '\n');
  }

  /** The documented rule for a whole text: same number of lines, every line that is not a sudo line
      lacking -A stays as it is, and every other line gets exactly the tokens of the rule. */
  lemma NormalizationMeetsRule(content: string, i: nat)
    requires i < |Split(content, '\n')|
    ensures |Split(NormalizedText(content), '\n')| == |Split(content, '\n')|
    ensures var before, after := Split(content, '\n')[i], Split(NormalizedText(content), '\n')[i];
            if LacksA(before)
            then Fields(before) != [] && Fields(after) == ["sudo", "-A"] + Without(Fields(before)[1..], "-A")
            else after == before
  {
    NormalizedLines(content);
    var before := Split(content, '\n')[i];
    if LacksA(before) { RewrittenTokens(before); }
  }

  lemma NormalizedIdempotent(content: string)
    ensures NormalizedText(NormalizedText(content)) == NormalizedText(content)
  {
    NormalizedLines(content);
    var fixed := FixedLines(Split(content, '\n'));
    forall i | 0 <= i < |fixed| ensures FixedLine(fixed[i]) == fixed[i] {
      FixedLineIdempotent(Split(content, '\n')[i]);
    }
    assert FixedLines(fixed) == fixed;
  }

  ghost predicate SomeLacksA(lines: seq<string>) {
    exists i :: 0 <= i < |lines| && LacksA(lines[i])
  }

  /** The text changes exactly when some sudo line lacks an immediate -A. */
  lemma ChangesExactlyWhenLacking(content: string)
    ensures NormalizedText(content) != content <==> SomeLacksA(Split(content, '\n'))
  {
    var lines := Split(content, '\n');
    JoinSplit(content, '\n');
    NormalizedLines(content);
    if SomeLacksA(lines) {
      var i :| 0 <= i < |lines| && LacksA(lines[i]);
      FixedLineIdempotent(lines[i]);
      assert FixedLines(lines)[i] != lines[i];
    } else {
      forall i | 0 <= i < |lines| ensures FixedLine(lines[i]) == lines[i] {
        FixedLineIdempotent(lines[i]);
      }
      assert FixedLines(lines) == lines;
    }
  }

  /** After pass 2 every sudo line of the text carries -A as its first argument. */
  lemma EverySudoLineHasA(content: string, i: nat)
    requires i < |Split(NormalizedText(content), '\n')|
    requires IsSudoCommandLine(Split(NormalizedText(content), '\n')[i])
    ensures var tokens := Fields(Split(NormalizedText(content), '\n')[i]);
            |tokens| >= 2 && tokens[0] == "sudo" && tokens[1] == "-A"
  {
    NormalizedLines(content);
    var line := Split(content, '\n')[i];
    if LacksA(line) { RewrittenIsSettled(line); }
    SettledTokens(FixedLine(line));
  }

  /** The body of the loop: skip, or rewrite. */
  method NormalizeLine(line: string) returns (fixed: string)
    ensures fixed == FixedLine(line)
  {
    if !IsSudoCommandLine(line) { return line; }
    if SudoHasAImmediately(line) { return line; }
    fixed := MoveSudoAToFront(line);
  }

  method NormalizeSudoAFlags(content: string) returns (out: string, changed: bool)
    ensures out == NormalizedText(content)
    ensures changed <==> out != content
    ensures changed <==> SomeLacksA(Split(content, '\n'))
  {
    var lines := Split(content, '\n');
    ghost var original := lines;
    changed := false;
    for i := 0 to |lines|
      invariant |lines| == |original|
      invariant forall k | 0 <= k < i :: lines[k] == FixedLine(original[k])
      invariant forall k | i <= k < |lines| :: lines[k] == original[k]
      invariant changed <==> lines != original
    {
      var fixed := NormalizeLine(lines[i]);
      if fixed != lines[i] {
        lines := lines[i := fixed];
        changed := true;
        assert lines[i] != original[i];
      }
    }
    assert lines == FixedLines(original);
    ChangesExactlyWhenLacking(content);
    JoinSplit(content, '\n');
    NormalizedLines(content);
    return Join(lines, "\n"), changed;
  }

  // ---------------------------------------------------------------- Pass 2 keeps `set -e`

  ghost predicate EndsWith(s: string, suffix: string) {
    |suffix| <= |s| && s[|s| - |suffix|..] == suffix
  }

  /** Some field ends in `a` and the next one starts with `b`. */
  ghost predicate Adjacent(words: seq<string>, a: string, b: string) {
    exists i :: 0 <= i < |words| - 1 && EndsWith(words[i], a) && b <= words[i + 1]
  }

  lemma AdjacentTail(w: string, words: seq<string>, a: string, b: string)
    requires Adjacent(words, a, b)
    ensures Adjacent([w] + words, a, b)
  {
    var i :| 0 <= i < |words| - 1 && EndsWith(words[i], a) && b <= words[i + 1];
    assert ([w] + words)[i + 1] == words[i] && ([w] + words)[i + 1 + 1] == words[i + 1];
  }

  lemma {:induction false} WordAtStart(s: string, b: string)
    requires Word(b) && b <= s
    ensures b <= FirstWord(s)
  {
    assert b[0] in b && s[0] == b[0];
    if |b| > 1 {
      assert Word(b[1..]) by { forall c | c in b[1..] ensures !IsSpace(c) { assert c in b; } }
      WordAtStart(s[1..], b[1..]);
    }
  }

  lemma FieldsStartWith(s: string, b: string)
    requires Word(b) && b <= s
    ensures Fields(s) != [] && b <= Fields(s)[0]
  {
    assert b[0] in b && s[0] == b[0];
    WordAtStart(s, b);
  }

  lemma OccursLater(s: string, sub: string, i: nat, k: nat)
    requires OccursAt(s, sub, i) && k <= i
    ensures OccursAt(s[k..], sub, i - k)
  {
    assert s[k..][i - k..i - k + |sub|] == s[i..i + |sub|];
  }

  /** An occurrence of `a b` in a text shows up as two neighbouring fields. */
  lemma {:induction false} OccurrenceIsAdjacent(s: string, a: string, b: string, i: nat)
    requires Word(a) && Word(b) && OccursAt(s, a + " " + b, i)
    ensures Adjacent(Fields(s), a, b)
    decreases |s|
  {
    var sub := a + " " + b;
    OccurrenceChars(s, a, b, i);
    if IsSpace(s[0]) {
      assert i > 0 by { assert s[i..i + |a|][0] == a[0] && a[0] in a; }
      OccursLater(s, sub, i, 1);
      OccurrenceIsAdjacent(s[1..], a, b, i - 1);
    } else {
      var w := FirstWord(s);
      FirstWordIsWord(s);
      if |w| <= i {
        OccursLater(s, sub, i, |w|);
        OccurrenceIsAdjacent(s[|w|..], a, b, i - |w|);
        AdjacentTail(w, Fields(s[|w|..]), a, b);
      } else {
        HeadIsAdjacent(s, a, b, i);
      }
    }
  }

  lemma HeadIsAdjacent(s: string, a: string, b: string, i: nat)
    requires s != "" && !IsSpace(s[0]) && i < |FirstWord(s)|
    requires Word(a) && Word(b) && OccursAt(s, a + " " + b, i)
    ensures Adjacent(Fields(s), a, b)
  {
    var w := FirstWord(s);
    var rest := s[|w|..];
    FirstWordEndsAtSpace(s, a, b, i);
    OccurrenceChars(s, a, b, i);
    assert rest[1..] == s[i + |a| + 1..];
    FieldsStartWith(rest[1..], b);
    var words := [w] + Fields(rest);
    assert words[0] == w && words[1] == Fields(rest)[0];
  }

  lemma OccurrenceChars(s: string, a: string, b: string, i: nat)
    requires OccursAt(s, a + " " + b, i)
    ensures i + |a| + 1 + |b| <= |s| && s[i..i + |a|] == a && s[i + |a|] == ' ' && b <= s[i + |a| + 1..]
  {
    var sub := a + " " + b;
    var o := s[i..i + |sub|];
    assert o[..|a|] == a && o[|a|] == ' ' && o[|a| + 1..] == b;
  }

  lemma NoSpaceBetween(s: string, from: nat, w: string)
    requires Word(w) && from + |w| <= |s| && s[from..from + |w|] == w
    ensures forall j | from <= j < from + |w| :: !IsSpace(s[j])
  {
    forall j | from <= j < from + |w| ensures !IsSpace(s[j]) {
      assert s[from..from + |w|][j - from] == w[j - from] && w[j - from] in w;
    }
  }

  lemma FirstWordEndsAtSpace(s: string, a: string, b: string, i: nat)
    requires s != "" && !IsSpace(s[0]) && i < |FirstWord(s)|
    requires Word(a) && OccursAt(s, a + " " + b, i)
    ensures |FirstWord(s)| == i + |a| && EndsWith(FirstWord(s), a)
  {
    var w := FirstWord(s);
    FirstWordIsWord(s);
    OccurrenceChars(s, a, b, i);
    NoSpaceBetween(s, 0, w);
    NoSpaceBetween(s, i, a);
  }

  lemma {:induction false} WithoutKeepsAdjacent(words: seq<string>, t: string, a: string, b: string, i: nat)
    requires i < |words| - 1 && EndsWith(words[i], a) && b <= words[i + 1]
    requires !EndsWith(t, a) && !(b <= t)
    ensures Adjacent(Without(words, t), a, b)
  {
    if i > 0 {
      WithoutKeepsAdjacent(words[1..], t, a, b, i - 1);
      if words[0] != t { AdjacentTail(words[0], Without(words[1..], t), a, b); }
    } else {
      var kept := Without(words, t);
      assert words[0] != t && words[1] != t && words[1..][0] == words[1];
      assert kept == [words[0]] + Without(words[1..], t);
      assert kept[0] == words[0] && kept[1] == words[1];
    }
  }

  lemma {:induction false} AdjacentOccurs(words: seq<string>, a: string, b: string, i: nat)
    requires i < |words| - 1 && EndsWith(words[i], a) && b <= words[i + 1]
    ensures Contains(Join(words, " "), a + " " + b)
  {
    var tail := Join(words[1..], " ");
    if i > 0 {
      AdjacentOccurs(words[1..], a, b, i - 1);
      ContainsInside(words[0] + " ", tail, "", a + " " + b);
      assert words[0] + " " + tail + "" == Join(words, " ");
    } else {
      assert words[1] <= tail;
      SpansTheBlank(words[0], a, tail, b);
    }
  }

  lemma SpansTheBlank(w: string, a: string, tail: string, b: string)
    requires EndsWith(w, a) && b <= tail
    ensures Contains(w + " " + tail, a + " " + b)
  {
    var before, after := w[..|w| - |a|], tail[|b|..];
    assert w == before + a && tail == b + after;
    assert OccursAt(a + " " + b, a + " " + b, 0);
    ContainsInside(before, a + " " + b, after, a + " " + b);
    assert before + (a + " " + b) + after == w + " " + tail;
  }

  lemma RuleKeeps(words: seq<string>, a: string, b: string)
    requires words != [] && words[0] == "sudo" && Adjacent(words, a, b)
    requires !EndsWith("sudo", a) && !EndsWith("-A", a) && !(b <= "-A")
    ensures Adjacent(["sudo", "-A"] + Without(words[1..], "-A"), a, b)
  {
    var args := words[1..];
    var i :| 0 <= i < |words| - 1 && EndsWith(words[i], a) && b <= words[i + 1];
    assert i > 0;
    assert args[i - 1] == words[i] && args[i] == words[i + 1];
    WithoutKeepsAdjacent(args, "-A", a, b, i - 1);
    AdjacentTail("-A", Without(args, "-A"), a, b);
    AdjacentTail("sudo", ["-A"] + Without(args, "-A"), a, b);
    assert ["sudo", "-A"] + Without(args, "-A") == ["sudo"] + (["-A"] + Without(args, "-A"));
  }

  lemma FixedLineKeeps(line: string, a: string, b: string)
    requires Word(a) && Word(b) && Contains(line, a + " " + b)
    requires !EndsWith("sudo", a) && !EndsWith("-A", a) && !(b <= "-A")
    ensures Contains(FixedLine(line), a + " " + b)
  {
    if LacksA(line) {
      var at :| OccursAt(line, a + " " + b, at);
      OccurrenceIsAdjacent(line, a, b, at);
      SudoFields(line);
      RuleKeeps(Fields(line), a, b);
      var rule := RuleTokens(line);
      var j :| 0 <= j < |rule| - 1 && EndsWith(rule[j], a) && b <= rule[j + 1];
      AdjacentOccurs(rule, a, b, j);
      ContainsInside(Leading(line), Join(rule, " "), "", a + " " + b);
      assert Leading(line) + Join(rule, " ") + "" == FixedLine(line);
    }
  }

  /** An occurrence without a line break lies inside one line. */
  lemma {:induction false} OccurrenceInOneLine(s: string, sub: string, i: nat) returns (k: nat)
    requires sub != "" && '\n' !in sub && OccursAt(s, sub, i)
    ensures k < |Split(s, '\n')| && Contains(Split(s, '\n')[k], sub)
    ensures i == 0 ==> k == 0 && sub <= Split(s, '\n')[0]
  {
    var rest := Split(s[1..], '\n');
    if i > 0 {
      assert s[1..][i - 1..i - 1 + |sub|] == s[i..i + |sub|];
      k := OccurrenceInOneLine(s[1..], sub, i - 1);
      if s[0] == '\n' {
        assert Split(s, '\n')[k + 1] == rest[k];
        k := k + 1;
      } else if k == 0 {
        ContainsInside([s[0]], rest[0], "", sub);
        assert [s[0]] + rest[0] + "" == Split(s, '\n')[0];
      } else {
        assert Split(s, '\n')[k] == rest[k];
      }
    } else {
      k := 0;
      assert s[0] == sub[0] && sub[0] in sub;
      if |sub| > 1 {
        assert s[1..][0..|sub[1..]|] == sub[1..];
        assert OccursAt(s[1..], sub[1..], 0);
        var _ := OccurrenceInOneLine(s[1..], sub[1..], 0);
        assert sub == [sub[0]] + sub[1..];
      }
      assert OccursAt(Split(s, '\n')[0], sub, 0);
    }
  }

  lemma {:induction false} JoinKeepsOccurrence(lines: seq<string>, k: nat, sub: string)
    requires k < |lines| && Contains(lines[k], sub)
    ensures Contains(Join(lines, "\n"), sub)
  {
    if |lines| > 1 {
      var tail := Join(lines[1..], "\n");
      if k == 0 {
        ContainsInside("", lines[0], "\n" + tail, sub);
        assert "" + lines[0] + ("\n" + tail) == Join(lines, "\n");
      } else {
        JoinKeepsOccurrence(lines[1..], k - 1, sub);
        ContainsInside(lines[0] + "\n", tail, "", sub);
        assert lines[0] + "\n" + tail + "" == Join(lines, "\n");
      }
    }
  }

  /** Normalising sudo lines never destroys a `set -e` or a `set -xe`. */
  lemma NormalizationKeepsSetE(content: string, flag: string)
    requires flag == "-e" || flag == "-xe"
    requires Contains(content, "set " + flag)
    ensures Contains(NormalizedText(content), "set " + flag)
  {
    var sub := "set" + " " + flag;
    assert sub == "set " + flag;
    var i :| OccursAt(content, sub, i);
    var k := OccurrenceInOneLine(content, sub, i);
    assert "sudo"[3] == 'o' && "set"[2] == 't' && "-A"[1] == 'A' && flag[1] != 'A';
    FixedLineKeeps(Split(content, '\n')[k], "set", flag);
    JoinKeepsOccurrence(FixedLines(Split(content, '\n')), k, sub);
  }

  // ---------------------------------------------------------------- Pass 1

  predicate HasOccurrence(s: string, sub: string)
    ensures HasOccurrence(s, sub) <==> Contains(s, sub)
  {
    if sub <= s then
      assert s[0..|sub|] == sub;
      assert OccursAt(s, sub, 0);
      true
    else if s == "" then false
    else
      assert forall i :: OccursAt(s, sub, i) ==> i > 0 && OccursAt(s[1..], sub, i - 1) by {
        forall i | OccursAt(s, sub, i) ensures i > 0 && OccursAt(s[1..], sub, i - 1) {
          if i > 0 { assert s[1..][i - 1..i - 1 + |sub|] == s[i..i + |sub|]; }
        }
      }
      assert Contains(s[1..], sub) ==> Contains(s, sub) by {
        if Contains(s[1..], sub) {
          ContainsInside([s[0]], s[1..], "", sub);
          assert [s[0]] + s[1..] + "" == s;
        }
      }
      HasOccurrence(s[1..], sub)
  }

  predicate HasSetE(content: string) {
    HasOccurrence(content, "set -e") || HasOccurrence(content, "set -eo") || HasOccurrence(content, "set -xe")
  }

  /** The lines of the block, written in short pieces. */
  function HeadLine(scriptName: string): string {
    "# --- " + "injected by " + "CICD (" + scriptName + "): ensure " + "non-zero exit " + "on failure ---"
  }

  function Comment(): string {
    "       # exit " + "immediately " + "on any command " + "failure"
  }

  function FlagLine(): string {
    "set" + (" " + ("-e" + Comment()))
  }

  function LastLine(): string {
    "# " + seq(59, _ => '-')
  }

  function InjectedBlock(scriptName: string): string {
    "\n" + (HeadLine(scriptName) + ("\n" + (FlagLine() + ("\n" + (LastLine() + "\n")))))
  }

  /** strings.SplitAfter(s, "\n"). */
  function SplitAfterNewline(s: string): (lines: seq<string>)
    ensures |lines| >= 1
  {
    if s == "" then [""]
    else if s[0] == '\n' then ["\n"] + SplitAfterNewline(s[1..])
    else
      var rest := SplitAfterNewline(s[1..]);
      [[s[0]] + rest[0]] + rest[1..]
  }

  /** strings.Join(parts, ""). */
  function Concat(parts: seq<string>): string {
    if parts == [] then "" else parts[0] + Concat(parts[1..])
  }

  lemma Associates(a: string, b: string, c: string)
    ensures (a + b) + c == a + (b + c)
  {
  }

  lemma ConcatLonger(c: char, rest: seq<string>)
    requires |rest| >= 1
    ensures Concat([[c] + rest[0]] + rest[1..]) == [c] + Concat(rest)
  {
    ConcatFirst([c] + rest[0], rest[1..]);
    Associates([c], rest[0], Concat(rest[1..]));
  }

  lemma {:induction false} SplitAfterKeepsText(s: string)
    ensures Concat(SplitAfterNewline(s)) == s
  {
    if s != "" {
      var rest := SplitAfterNewline(s[1..]);
      SplitAfterKeepsText(s[1..]);
      assert s == [s[0]] + s[1..];
      if s[0] == '\n' {
        ConcatFirst("\n", rest);
      } else {
        ConcatLonger(s[0], rest);
      }
    }
  }

  /** Where pass 1 inserts: after the shebang line, or at the top. */
  function InsertionPoint(content: string): (k: nat)
    ensures k <= |content|
  {
    var first := SplitAfterNewline(content)[0];
    assert |first| <= |content| by {
      SplitAfterKeepsText(content);
    }
    if "#!" <= first then |first| else 0
  }

  /** The block is in front of a text without a shebang line, and otherwise right behind that line. */
  ghost predicate InjectedAfterShebang(content: string, block: string, out: string) {
    if !("#!" <= content) then out == block + content
    else if '\n' !in content then out == content + block
    else exists k :: FirstBreak(content, k) && out == content[..k + 1] + block + content[k + 1..]
  }

  ghost predicate FirstBreak(content: string, k: int) {
    0 <= k < |content| && content[k] == '\n' && '\n' !in content[..k]
  }

  function InjectedText(content: string, scriptName: string): string {
    var k := InsertionPoint(content);
    content[..k] + InjectedBlock(scriptName) + content[k..]
  }

  method InjectSafetyFlags(content: string, scriptName: string) returns (out: string, injected: bool)
    ensures injected <==> !Contains(content, "set -e") && !Contains(content, "set -eo") && !Contains(content, "set -xe")
    ensures out == if injected then InjectedText(content, scriptName) else content
    ensures injected ==> InjectedAfterShebang(content, InjectedBlock(scriptName), out)
  {
    InjectedExactly(content, scriptName);
    if HasSetE(content) {
      return content, false;
    }
    var lines := SplitAfterNewline(content);
    SplitAfterKeepsText(content);
    var insertAt := 0;
    if |lines| > 0 && "#!" <= lines[0] {
      insertAt := 1;
    }
    var result: seq<string> := [];
    result := result + lines[..insertAt];
    result := result + [InjectedBlock(scriptName)];
    result := result + lines[insertAt..];
    JoinAround(lines, InjectedBlock(scriptName), insertAt);
    return Concat(result), true;
  }

  lemma ConcatFirst(x: string, parts: seq<string>)
    ensures Concat([x] + parts) == x + Concat(parts)
  {
    assert ([x] + parts)[1..] == parts;
  }

  lemma JoinAround(lines: seq<string>, block: string, k: nat)
    requires |lines| >= 1 && k <= 1
    ensures var whole, n := Concat(lines), if k == 0 then 0 else |lines[0]|;
            n <= |whole| && Concat([] + lines[..k] + [block] + lines[k..]) == whole[..n] + block + whole[n..]
  {
    if k == 0 {
      JoinBefore(lines, block);
    } else {
      JoinAfterFirst(lines, block);
    }
  }

  lemma JoinBefore(lines: seq<string>, block: string)
    ensures Concat([] + lines[..0] + [block] + lines[0..]) == Concat(lines)[..0] + block + Concat(lines)[0..]
  {
    assert [] + lines[..0] + [block] + lines[0..] == [block] + lines;
    ConcatFirst(block, lines);
  }

  lemma JoinAfterFirst(lines: seq<string>, block: string)
    requires |lines| >= 1
    ensures var whole, n := Concat(lines), |lines[0]|;
            n <= |whole| && Concat([] + lines[..1] + [block] + lines[1..]) == whole[..n] + block + whole[n..]
  {
    assert [] + lines[..1] + [block] + lines[1..] == [lines[0]] + ([block] + lines[1..]);
    ConcatFirst(lines[0], [block] + lines[1..]);
    ConcatFirst(block, lines[1..]);
    SplitAround(lines[0], block, Concat(lines[1..]));
  }

  lemma SplitAround(first: string, block: string, rest: string)
    ensures var whole := first + rest;
            first + (block + rest) == whole[..|first|] + block + whole[|first|..]
  {
    var whole := first + rest;
    assert whole[..|first|] == first && whole[|first|..] == rest;
  }

  /** The first piece of a text: its first line with the break, or all of it. */
  lemma {:induction false} FirstPiece(s: string)
    ensures '\n' !in s ==> SplitAfterNewline(s)[0] == s
    ensures '\n' in s ==> exists k :: FirstBreak(s, k) && SplitAfterNewline(s)[0] == s[..k + 1]
  {
    if s != "" {
      FirstPiece(s[1..]);
      assert s == [s[0]] + s[1..];
      if s[0] == '\n' {
        assert FirstBreak(s, 0) && s[..1] == "\n";
      } else if '\n' in s {
        var k :| FirstBreak(s[1..], k) && SplitAfterNewline(s[1..])[0] == s[1..][..k + 1];
        assert s[..k + 1] == [s[0]] + s[1..][..k] && s[..k + 2] == [s[0]] + s[1..][..k + 1];
        assert FirstBreak(s, k + 1);
      }
    }
  }

  lemma InjectedExactly(content: string, scriptName: string)
    ensures InjectedAfterShebang(content, InjectedBlock(scriptName), InjectedText(content, scriptName))
  {
    FirstPiece(content);
    FirstLineShape(content);
    if "#!" <= content {
      ShebangLine(content);
    } else {
      assert !("#!" <= SplitAfterNewline(content)[0]);
    }
    Spliced(content, InjectedBlock(scriptName));
  }

  lemma Spliced(content: string, block: string)
    ensures content[..0] + block + content[0..] == block + content
    ensures content[..|content|] + block + content[|content|..] == content + block
  {
    assert content[..0] == "" && content[|content|..] == "";
  }

  // ---------------------------------------------------------------- Nothing runs before `set -e`

  lemma SetThenE(rest: string)
    requires rest != "" && rest[0] == ' '
    ensures var line := "set" + (" " + ("-e" + rest));
            |Fields(line)| >= 2 && Fields(line)[0] == "set" && Fields(line)[1] == "-e" && line == "set -e" + rest
  {
    TwoWords("set", "-e", rest);
  }

  lemma TwoWords(a: string, b: string, rest: string)
    requires Word(a) && Word(b) && (rest != "" ==> IsSpace(rest[0]))
    ensures Fields(a + (" " + (b + rest))) == [a] + ([b] + Fields(rest))
  {
    FieldsWord(b, rest);
    FieldsSkipBlank(" ", b + rest);
    FieldsWord(a, " " + (b + rest));
  }

  lemma CommentShape()
    ensures Comment() != "" && Comment()[0] == ' ' && '\n' !in Comment()
  {
    var first := "       # exit ";
    assert first[0] == ' ' && Comment()[0] == first[0];
  }

  lemma HeadIsOneLine(scriptName: string)
    requires '\n' !in scriptName
    ensures '\n' !in HeadLine(scriptName) && HeadLine(scriptName) != "" && HeadLine(scriptName)[0] == '#'
  {
    var first := "# --- ";
    assert HeadLine(scriptName)[0] == first[0];
  }

  /** A blank line or a comment. */
  predicate Quiet(line: string) {
    line == "" || line[0] == '#'
  }

  lemma SplitNext(line: string, rest: string)
    requires '\n' !in line
    ensures Split(line + ("\n" + rest), '\n') == [line] + Split(rest, '\n')
  {
    SplitAppend(line, '\n', rest);
    SplitOne(line, '\n');
    assert line + ['\n'] + rest == line + ("\n" + rest);
  }

  lemma BlockThen(scriptName: string, rest: string)
    ensures InjectedBlock(scriptName) + rest ==
              "\n" + (HeadLine(scriptName) + ("\n" + (FlagLine() + ("\n" + (LastLine() + ("\n" + rest))))))
  {
    var three := LastLine() + "\n";
    var two := FlagLine() + ("\n" + three);
    var one := HeadLine(scriptName) + ("\n" + two);
    assert three + rest == LastLine() + ("\n" + rest);
    assert two + rest == FlagLine() + ("\n" + (three + rest));
    assert one + rest == HeadLine(scriptName) + ("\n" + (two + rest));
  }

  lemma FourLines(head: string, flag: string, last: string, rest: string)
    requires '\n' !in head && '\n' !in flag && '\n' !in last
    ensures Split("\n" + (head + ("\n" + (flag + ("\n" + (last + ("\n" + rest)))))), '\n') ==
              ["", head, flag, last] + Split(rest, '\n')
  {
    var three := last + ("\n" + rest);
    var two := flag + ("\n" + three);
    SplitNext(last, rest);
    SplitNext(flag, three);
    SplitNext(head, two);
    SplitNext("", head + ("\n" + two));
    assert "" + ("\n" + (head + ("\n" + two))) == "\n" + (head + ("\n" + two));
  }

  /** The lines of what starts with the block. */
  lemma BlockLines(scriptName: string, rest: string)
    requires '\n' !in scriptName
    ensures Split(InjectedBlock(scriptName) + rest, '\n') ==
              ["", HeadLine(scriptName), FlagLine(), LastLine()] + Split(rest, '\n')
  {
    CommentShape();
    HeadIsOneLine(scriptName);
    BlockThen(scriptName, rest);
    FourLines(HeadLine(scriptName), FlagLine(), LastLine(), rest);
  }

  /** A line of the text sets the flag, and above it there are only comments and blank lines. */
  ghost predicate SetsEFirst(lines: seq<string>, k: int) {
    && 0 <= k < |lines| && |Fields(lines[k])| >= 2 && Fields(lines[k])[0] == "set" && Fields(lines[k])[1] == "-e"
    && forall j | 0 <= j < k :: Quiet(lines[j])
  }

  lemma FlagIsSet(lines: seq<string>, k: nat)
    requires k < |lines| && lines[k] == FlagLine() && forall j | 0 <= j < k :: Quiet(lines[j])
    ensures SetsEFirst(lines, k)
  {
    CommentShape();
    SetThenE(Comment());
  }

  lemma SetsEAtTop(content: string, scriptName: string)
    requires '\n' !in scriptName
    ensures SetsEFirst(Split(InjectedBlock(scriptName) + content, '\n'), 2)
  {
    HeadIsOneLine(scriptName);
    BlockLines(scriptName, content);
    FlagIsSet(Split(InjectedBlock(scriptName) + content, '\n'), 2);
  }

  lemma BlockAlone(scriptName: string)
    requires '\n' !in scriptName
    ensures InjectedBlock(scriptName) != "" && InjectedBlock(scriptName)[0] == '\n'
    ensures var lines := Split(InjectedBlock(scriptName), '\n');
            |lines| > 2 && lines[1] == HeadLine(scriptName) && lines[2] == FlagLine()
  {
    BlockLines(scriptName, "");
    assert InjectedBlock(scriptName) + "" == InjectedBlock(scriptName);
  }

  lemma SetsEBehindAll(content: string, scriptName: string)
    requires '\n' !in scriptName && '\n' !in content && Quiet(content)
    ensures SetsEFirst(Split(content + InjectedBlock(scriptName), '\n'), 2)
  {
    HeadIsOneLine(scriptName);
    BlockAlone(scriptName);
    BehindLine(content, InjectedBlock(scriptName));
    FlagBehind(Split(content + InjectedBlock(scriptName), '\n'), content, Split(InjectedBlock(scriptName), '\n'));
  }

  lemma FlagBehind(lines: seq<string>, line: string, block: seq<string>)
    requires |block| > 2 && lines == [line] + block[1..] && block[2] == FlagLine() && Quiet(line) && Quiet(block[1])
    ensures SetsEFirst(lines, 2)
  {
    assert lines[1] == block[1] && lines[2] == block[2];
    FlagIsSet(lines, 2);
  }

  lemma SetsEBehindLine(line: string, rest: string, scriptName: string)
    requires '\n' !in scriptName && '\n' !in line && Quiet(line)
    ensures SetsEFirst(Split(line + ("\n" + (InjectedBlock(scriptName) + rest)), '\n'), 3)
  {
    HeadIsOneLine(scriptName);
    BlockLines(scriptName, rest);
    SplitNext(line, InjectedBlock(scriptName) + rest);
    FlagIsSet(Split(line + ("\n" + (InjectedBlock(scriptName) + rest)), '\n'), 3);
  }

  lemma InjectedSetsEFirst(content: string, scriptName: string)
    requires '\n' !in scriptName
    ensures exists k :: SetsEFirst(Split(InjectedText(content, scriptName), '\n'), k)
  {
    var out, block := InjectedText(content, scriptName), InjectedBlock(scriptName);
    InjectedExactly(content, scriptName);
    if !("#!" <= content) {
      SetsEAtTop(content, scriptName);
    } else if '\n' !in content {
      assert content[0] == "#!"[0] == '#';
      SetsEBehindAll(content, scriptName);
    } else {
      var k :| FirstBreak(content, k) && out == content[..k + 1] + block + content[k + 1..];
      ShebangFirst(content, k);
      SetsEBehindLine(content[..k], content[k + 1..], scriptName);
      BreakBetween(content, k, block);
    }
  }

  lemma BreakBetween(content: string, k: nat, block: string)
    requires FirstBreak(content, k)
    ensures content[..k + 1] + block + content[k + 1..] == content[..k] + ("\n" + (block + content[k + 1..]))
  {
    assert content[..k + 1] == content[..k] + "\n";
  }

  lemma ShebangFirst(content: string, k: nat)
    requires "#!" <= content && FirstBreak(content, k)
    ensures k > 0 && content[..k][0] == '#'
  {
    assert content[0] == "#!"[0] == '#';
  }

  /** The block starts with a break, which ends a line without one. */
  lemma BehindLine(line: string, block: string)
    requires '\n' !in line && block != "" && block[0] == '\n'
    ensures Split(line + block, '\n') == [line] + Split(block, '\n')[1..]
  {
    assert block == "\n" + block[1..];
    SplitNext(line, block[1..]);
  }

  lemma QuietStays(line: string)
    requires Quiet(line) || (Fields(line) != [] && Fields(line)[0] == "set")
    ensures FixedLine(line) == line
  {
    SudoLineExactly(line);
    if line != "" && line[0] == '#' { assert Fields(line)[0][0] == '#' && "sudo"[0] == 's'; }
  }

  /** So no command of a patched install script runs before `set -e`, if pass 1 had to add it. */
  lemma NothingRunsBeforeSetE(content: string)
    requires !HasSetE(content)
    ensures exists k :: SetsEFirst(Split(PatchedText(content, true), '\n'), k)
  {
    var text := InjectedText(content, "install.sh");
    InjectedSetsEFirst(content, "install.sh");
    var k :| SetsEFirst(Split(text, '\n'), k);
    NormalizedLines(text);
    forall j | 0 <= j <= k ensures FixedLine(Split(text, '\n')[j]) == Split(text, '\n')[j] {
      QuietStays(Split(text, '\n')[j]);
    }
    assert SetsEFirst(Split(PatchedText(content, true), '\n'), k);
  }

  /** And every sudo line of a patched script has -A as its first argument. Nothing else is changed in it, but for
      the block that pass 1 has put into an install script without the flag. */
  lemma PatchedSudoLines(content: string, install: bool, i: nat)
    requires i < |Split(PatchedText(content, install), '\n')|
    ensures var line := Split(PatchedText(content, install), '\n')[i];
            IsSudoCommandLine(line) ==> |Fields(line)| >= 2 && Fields(line)[1] == "-A"
    ensures var text := if install && !HasSetE(content) then InjectedText(content, "install.sh") else content;
            && |Split(PatchedText(content, install), '\n')| == |Split(text, '\n')|
            && Split(PatchedText(content, install), '\n')[i] == FixedLine(Split(text, '\n')[i])
  {
    var text := if install && !HasSetE(content) then InjectedText(content, "install.sh") else content;
    if IsSudoCommandLine(Split(PatchedText(content, install), '\n')[i]) { EverySudoLineHasA(text, i); }
    NormalizedLines(text);
  }

  lemma InjectionHasSetE(content: string, scriptName: string)
    ensures Contains(InjectedText(content, scriptName), "set -e")
  {
    var k, flag := InsertionPoint(content), FlagLine();
    CommentShape();
    SetThenE(Comment());
    var before, after := content[..k] + ("\n" + HeadLine(scriptName) + "\n"), "\n" + (LastLine() + "\n") + content[k..];
    assert OccursAt(flag, "set -e", 0);
    ContainsInside(before, flag, after, "set -e");
    FlagInside(content[..k], HeadLine(scriptName), flag, "\n" + (LastLine() + "\n"), content[k..]);
  }

  lemma FlagInside(before: string, head: string, flag: string, tail: string, after: string)
    ensures before + ("\n" + head + "\n") + flag + (tail + after)
            == before + ("\n" + (head + ("\n" + (flag + tail)))) + after
  {
    assert "\n" + (head + ("\n" + (flag + tail))) == ("\n" + head + "\n") + (flag + tail);
  }

  /** Cutting the block out gives the input back. */
  lemma InjectionIsUndoable(content: string, scriptName: string)
    ensures var out, k, n := InjectedText(content, scriptName), InsertionPoint(content), |InjectedBlock(scriptName)|;
            k + n <= |out| && out[..k] + out[k + n..] == content && out[k..k + n] == InjectedBlock(scriptName)
  {
    var k, block := InsertionPoint(content), InjectedBlock(scriptName);
    assert content == content[..k] + content[k..];
  }

  lemma InjectedAfterLine(content: string, scriptName: string) returns (after: string)
    requires "#!" <= content
    ensures InjectedText(content, scriptName) == Split(content, '\n')[0] + ['\n'] + after
  {
    ShebangLine(content);
    FirstLineShape(content);
    var k, block := InsertionPoint(content), InjectedBlock(scriptName);
    var first, line := SplitAfterNewline(content)[0], Split(content, '\n')[0];
    assert block == ['\n'] + block[1..] && content[..k] == first;
    if first == line {
      after := block[1..] + content[k..];
      assert line + (['\n'] + block[1..]) + content[k..] == line + ['\n'] + after;
    } else {
      after := block + content[k..];
      assert (line + ['\n']) + block + content[k..] == line + ['\n'] + after;
    }
  }

  /** A shebang line stays the first line, unchanged. */
  lemma ShebangStaysFirst(content: string, scriptName: string)
    requires "#!" <= content
    ensures Split(InjectedText(content, scriptName), '\n')[0] == Split(content, '\n')[0]
    ensures "#!" <= Split(content, '\n')[0]
  {
    ShebangLine(content);
    var line := Split(content, '\n')[0];
    SplitHasNoSeparator(content, '\n');
    assert line in Split(content, '\n');
    SplitOne(line, '\n');
    var after := InjectedAfterLine(content, scriptName);
    SplitAppend(line, '\n', after);
  }

  lemma {:induction false} FirstLineShape(s: string)
    ensures var first, line := SplitAfterNewline(s)[0], Split(s, '\n')[0];
            first <= s && (first == line || first == line + "\n")
  {
    if s != "" {
      FirstLineShape(s[1..]);
      var first, line := SplitAfterNewline(s[1..])[0], Split(s[1..], '\n')[0];
      if s[0] != '\n' {
        assert [s[0]] + (line + "\n") == ([s[0]] + line) + "\n";
      }
    }
  }

  lemma ShebangLine(content: string)
    requires "#!" <= content
    ensures "#!" <= SplitAfterNewline(content)[0] && "#!" <= Split(content, '\n')[0]
  {
    assert content[0] == '#' && content[1] == '!' && content[1..][0] == '!';
    var rest, srest := SplitAfterNewline(content[1..]), Split(content[1..], '\n');
    assert rest[0][0] == '!' && srest[0][0] == '!';
    assert SplitAfterNewline(content)[0] == ['#'] + rest[0];
    assert Split(content, '\n')[0] == ['#'] + srest[0];
  }

  // ---------------------------------------------------------------- Both passes

  predicate IsInstallScript(srcPath: string) {
    HasOccurrence(srcPath, "install.sh")
  }

  function PatchedText(content: string, install: bool): string {
    if install && !HasSetE(content) then NormalizedText(InjectedText(content, "install.sh"))
    else NormalizedText(content)
  }

  lemma PatchedHasSetE(content: string)
    ensures HasSetE(PatchedText(content, true))
  {
    assert "set " + "-e" == "set -e" && "set " + "-xe" == "set -xe";
    if !HasSetE(content) {
      InjectionHasSetE(content, "install.sh");
      NormalizationKeepsSetE(InjectedText(content, "install.sh"), "-e");
    } else if Contains(content, "set -xe") {
      NormalizationKeepsSetE(content, "-xe");
    } else {
      if Contains(content, "set -eo") {
        var i :| OccursAt(content, "set -eo", i);
        assert content[i..i + 7][..6] == content[i..i + 6];
        assert "set -eo"[..6] == "set -e";
        assert OccursAt(content, "set -e", i);
      }
      NormalizationKeepsSetE(content, "-e");
    }
  }

  /** Patching a patched script changes nothing, for install scripts and run scripts alike. */
  lemma PatchIdempotent(content: string, install: bool)
    ensures PatchedText(PatchedText(content, install), install) == PatchedText(content, install)
  {
    if install { PatchedHasSetE(content); }
    NormalizedIdempotent(content);
    NormalizedIdempotent(InjectedText(content, "install.sh"));
  }

  /** patchShellScript: `data` is what reading the source gives, `writeOk` whether the copy could be written. */
  method PatchShellScript(srcPath: string, dstPath: string, data: Option<string>, writeOk: bool)
    returns (toRun: string, written: Option<string>)
    ensures IsInstallScript(srcPath) <==> Contains(srcPath, "install.sh")
    ensures written.Some? <==> data.Some? && writeOk && PatchedText(data.value, IsInstallScript(srcPath)) != data.value
    ensures written.Some? ==> toRun == dstPath && written.value == PatchedText(data.value, IsInstallScript(srcPath))
    ensures written.None? ==> toRun == srcPath
  {
    if data.None? {
      return srcPath, None;
    }
    var content := data.value;
    var needsPatch := false;
    if IsInstallScript(srcPath) {
      var flagsInjected;
      content, flagsInjected := InjectSafetyFlags(content, "install.sh");
      if flagsInjected {
        needsPatch := true;
      }
      PatchedHasSetE(data.value);
    }
    var sudoFixed;
    content, sudoFixed := NormalizeSudoAFlags(content);
    if sudoFixed {
      needsPatch := true;
    }
    assert content == PatchedText(data.value, IsInstallScript(srcPath));
    if !needsPatch {
      return srcPath, None;
    }
    if !writeOk {
      return srcPath, None;
    }
    return dstPath, Some(content);
  }
}
