/** The .env loader run at start-up by the server and by the seed script:
    each line of the file is trimmed, comments and malformed lines are
    skipped, and KEY=VALUE sets KEY unless the environment already holds a
    non-empty value for it. The file arrives as its lines (None when it
    cannot be opened); characters are Unicode code points. */
module EnvFile {
  import opened Wire
  import opened Text
  import opened Config

  /** unicode.IsSpace: the characters strings.TrimSpace removes. */
  predicate IsSpace(c: char) {
    || c == '\t' || c == '\n' || c == '\U{000B}' || c == '\U{000C}' || c == '\r' || c == ' '
    || c == '\U{0085}' || c == '\U{00A0}' || c == '\U{1680}'
    || ('\U{2000}' <= c <= '\U{200A}')
    || c == '\U{2028}' || c == '\U{2029}' || c == '\U{202F}' || c == '\U{205F}' || c == '\U{3000}'
  }

  /** strings.TrimSpace. */
  function TrimSpace(s: string): string {
    TrimBy(s, IsSpace)
  }

  predicate HasPrefix(s: string, p: string) {
    |p| <= |s| && s[..|p|] == p
  }

  predicate HasSuffix(s: string, p: string) {
    |p| <= |s| && s[|s| - |p|..] == p
  }

  predicate IsDoubleQuote(c: char) {
    c == '"'
  }

  predicate IsSingleQuote(c: char) {
    c == '\''
  }

  /** A value that starts and ends with a double quote loses every leading
      and trailing double quote (strings.Trim); failing that, the same for
      single quotes; any other value is kept. */
  function Unquote(val: string): (r: string)
    ensures |r| <= |val|
    ensures !(HasPrefix(val, "\"") && HasSuffix(val, "\"")) && !(HasPrefix(val, "'") && HasSuffix(val, "'")) ==> r == val
  {
    if HasPrefix(val, "\"") && HasSuffix(val, "\"") then TrimBy(val, IsDoubleQuote)
    else if HasPrefix(val, "'") && HasSuffix(val, "'") then TrimBy(val, IsSingleQuote)
    else val
  }

  /** What one line of the file asks for. */
  datatype Line = Skip | Assign(key: string, value: string)

  /** The loop body's reading of one line: blank and "#" lines are skipped,
      and so are lines without "=" or starting with it; otherwise the key is
      the trimmed text before the first "=", the value the trimmed and
      unquoted text after it. */
  function ParseLine(raw: string): Line {
    var line := TrimSpace(raw);
    if line == "" || HasPrefix(line, "#") then Skip
    else
      var idx := Find(line, "=");
      if idx.None? || idx.value == 0 then Skip
      else Assign(TrimSpace(line[..idx.value]), Unquote(TrimSpace(line[idx.value + 1..])))
  }

  /** The pairs os.Setenv accepts on Unix: a non-empty key free of "=" and
      NUL, and a value free of NUL. Any other pair is refused with EINVAL and
      sets nothing. */
  predicate SetenvAccepts(k: string, v: string) {
    k != "" && '=' !in k && '\0' !in k && '\0' !in v
  }

  /** The environment after one line: a key is set only while it reads as
      empty, and only when os.Setenv accepts the pair; its error is
      discarded. */
  function Assigned(vars: Environment, l: Line): Environment {
    match l
    case Skip => vars
    case Assign(k, v) => if k != "" && Getenv(vars, k) == "" && SetenvAccepts(k, v) then vars[k := v] else vars
  }

  /** Each line of the file, read. */
  function ParseLines(lines: seq<string>): (ls: seq<Line>)
    ensures |ls| == |lines|
  {
    seq(|lines|, i requires 0 <= i < |lines| => ParseLine(lines[i]))
  }

  /** The environment after the read lines, in order. */
  function ApplyLines(vars: Environment, ls: seq<Line>): Environment
    decreases |ls|
  {
    if ls == [] then vars
    else Assigned(ApplyLines(vars, ls[..|ls| - 1]), ls[|ls| - 1])
  }

  lemma ApplyLinesStep(vars: Environment, ls: seq<Line>, n: nat)
    requires n < |ls|
    ensures ApplyLines(vars, ls[..n + 1]) == Assigned(ApplyLines(vars, ls[..n]), ls[n])
  {
    assert ls[..n + 1][..n] == ls[..n];
  }

  /** The process environment os.Getenv and os.Setenv work on. */
  class ProcessEnv {
    var vars: Environment

    constructor (vars: Environment)
      ensures this.vars == vars
    {
      this.vars := vars;
    }

    /** loadEnvFile: a file that cannot be opened changes nothing; otherwise
        each line is read as ParseLine reads it and a key is set while it
        reads as empty (os.Getenv, os.Setenv). */
    method LoadEnvFile(file: Option<seq<string>>)
      modifies this
      ensures file.None? ==> vars == old(vars)
      ensures file.Some? ==> vars == ApplyLines(old(vars), ParseLines(file.value))
    {
      if file.None? {
        return;
      }
      var lines := file.value;
      ghost var ls := ParseLines(lines);
      var n := 0;
      while n < |lines|
        invariant 0 <= n <= |lines|
        invariant vars == ApplyLines(old(vars), ls[..n])
      {
        ApplyLinesStep(old(vars), ls, n);
        var l := ParseLine(lines[n]);
        if l.Assign? && l.key != "" && Getenv(vars, l.key) == "" && SetenvAccepts(l.key, l.value) {
          vars := vars[l.key := l.value];
        }
        n := n + 1;
      }
      assert ls[..n] == ls;
    }
  }

  // ---------------------------------------------------------------------
  // Properties of the loader

  /** Blank lines and comment lines set nothing. */
  lemma BlankAndCommentLinesSkipped(raw: string)
    requires TrimSpace(raw) == "" || TrimSpace(raw)[0] == '#'
    ensures ParseLine(raw) == Skip
  {
  }

  /** A line without "=", or whose trimmed text starts with "=", sets nothing. */
  lemma LinesWithoutKeySkipped(raw: string)
    requires || (forall k :: 0 <= k < |TrimSpace(raw)| ==> TrimSpace(raw)[k] != '=')
             || (TrimSpace(raw) != "" && TrimSpace(raw)[0] == '=')
    ensures ParseLine(raw) == Skip
  {
    var line := TrimSpace(raw);
    var idx := Find(line, "=");
    if idx.Some? {
      assert line[idx.value..idx.value + 1] == "=";
      assert line[idx.value] == '=';
      if line != "" && line[0] == '=' {
        assert line[0..1] == "=";
        assert OccursAt(line, "=", 0);
      }
    }
  }

  /** "=" occurs at j exactly when the character at j is "=". */
  lemma EqualsAt(s: string, j: nat)
    ensures OccursAt(s, "=", j) <==> j < |s| && s[j] == '='
  {
    if j < |s| {
      assert s[j..j + 1] == [s[j]];
    }
  }

  /** The text before the first "=" of a trimmed line, trimmed, is a key:
      non-empty, free of "=", with no spaces at its ends. */
  lemma KeyBeforeFirstEquals(line: string, idx: nat)
    requires line != [] && !IsSpace(line[0]) && 0 < idx && Find(line, "=") == Some(idx)
    ensures var key := TrimSpace(line[..idx]);
      && key != ""
      && (forall k :: 0 <= k < |key| ==> key[k] != '=')
      && !IsSpace(key[0]) && !IsSpace(key[|key| - 1])
  {
    var head := line[..idx];
    TrimByNonEmpty(head, IsSpace);
    TrimBySlice(head, IsSpace);
    var key := TrimSpace(head);
    var i := Lead(head, IsSpace);
    forall k | 0 <= k < |key|
      ensures key[k] != '='
    {
      assert key[k] == line[i + k];
      assert !OccursAt(line, "=", i + k);
      EqualsAt(line, i + k);
    }
  }

  /** The key a line sets is never empty, contains no "=", and has no
      spaces at its ends: the `key != ""` test in the loop never fails. */
  lemma ParsedKey(raw: string)
    requires ParseLine(raw).Assign?
    ensures var key := ParseLine(raw).key;
      && key != ""
      && (forall k :: 0 <= k < |key| ==> key[k] != '=')
      && !IsSpace(key[0]) && !IsSpace(key[|key| - 1])
  {
    TrimBySlice(raw, IsSpace);
    var line := TrimSpace(raw);
    KeyBeforeFirstEquals(line, Find(line, "=").value);
  }

  /** The first "=" after a key free of "=" is the one right after it. */
  lemma FindAfterKey(key: string, rest: string)
    requires forall k :: 0 <= k < |key| ==> key[k] != '='
    ensures Find(key + "=" + rest, "=") == Some(|key|)
  {
    var line := key + "=" + rest;
    EqualsAt(line, |key|);
    forall k | 0 <= k < |key|
      ensures !OccursAt(line, "=", k)
    {
      assert line[k] == key[k];
      EqualsAt(line, k);
    }
  }

  /** A key as a line must spell it to be read back unchanged. */
  predicate IsKey(key: string) {
    && key != "" && key[0] != '#' && !IsSpace(key[0]) && !IsSpace(key[|key| - 1])
    && forall k :: 0 <= k < |key| ==> key[k] != '='
  }

  /** A value that neither trimming nor unquoting changes. */
  predicate IsPlainValue(value: string) {
    && (value == [] || (!IsSpace(value[0]) && !IsSpace(value[|value| - 1])))
    && !(HasPrefix(value, "\"") && HasSuffix(value, "\""))
    && !(HasPrefix(value, "'") && HasSuffix(value, "'"))
  }

  /** A key and a value that need no trimming or unquoting come back
      unchanged from the line KEY=VALUE; further "=" stay in the value. */
  lemma LineRoundTrip(key: string, value: string)
    requires IsKey(key) && IsPlainValue(value)
    ensures ParseLine(key + "=" + value) == Assign(key, value)
  {
    var line := key + "=" + value;
    LineIsTrimmed(key, value);
    FindAfterKey(key, value);
    PartsAreTrimmed(key, value);
  }

  /** The line KEY=VALUE is neither blank nor a comment, and trimming leaves it. */
  lemma LineIsTrimmed(key: string, value: string)
    requires IsKey(key) && IsPlainValue(value)
    ensures var line := key + "=" + value;
            TrimSpace(line) == line && line != "" && !HasPrefix(line, "#")
  {
    var line := key + "=" + value;
    assert line[0] == key[0];
    assert line[|line| - 1] == if value == [] then '=' else value[|value| - 1];
    TrimByKeeps(line, IsSpace);
  }

  /** The text on either side of the "=" after the key reads back as the key
      and as the value. */
  lemma PartsAreTrimmed(key: string, value: string)
    requires IsKey(key) && IsPlainValue(value)
    ensures var line := key + "=" + value;
            TrimSpace(line[..|key|]) == key && Unquote(TrimSpace(line[|key| + 1..])) == value
  {
    var line := key + "=" + value;
    assert line[..|key|] == key;
    TrimByKeeps(key, IsSpace);
    assert line[|key| + 1..] == value;
    TrimByKeeps(value, IsSpace);
  }

  /** A value wrapped in one pair of quotes of either kind loses them. */
  lemma QuotesStripped(inner: string, q: char)
    requires q == '"' || q == '\''
    requires inner == [] || (inner[0] != q && inner[|inner| - 1] != q)
    ensures Unquote([q] + inner + [q]) == inner
  {
    var v := [q] + inner + [q];
    var cut := if q == '"' then IsDoubleQuote else IsSingleQuote;
    assert Unquote(v) == TrimBy(v, cut) by {
      assert v[|v| - 1..] == [q];
      assert v[..1] == [q];
    }
    if inner == [] {
      assert v == [q, q];
      TrimPairOnly(q, cut);
    } else {
      TrimAroundPair(inner, q, cut);
    }
  }

  /** Two characters of the class trim to nothing. */
  lemma TrimPairOnly(q: char, cut: char -> bool)
    requires cut(q)
    ensures TrimBy([q, q], cut) == []
  {
    var v := [q, q];
    assert v[1..] == [q];
    assert [q][1..] == [];
    assert Lead([q], cut) == 1;
    assert Lead(v, cut) == 2;
  }

  /** Trimming a class off a string wrapped in one character of the class,
      whose own ends are outside it, leaves the string. */
  lemma TrimAroundPair(inner: string, q: char, cut: char -> bool)
    requires cut(q) && inner != [] && !cut(inner[0]) && !cut(inner[|inner| - 1])
    ensures TrimBy([q] + inner + [q], cut) == inner
  {
    var v := [q] + inner + [q];
    var t := inner + [q];
    assert v[1..] == t;
    assert t[0] == inner[0];
    assert Lead(t, cut) == 0;
    assert Lead(v, cut) == 1;
    assert t[..|t| - 1] == inner;
    assert Trail(inner, cut) == 0;
    assert Trail(t, cut) == 1;
  }

  /** Once a key holds a non-empty value, no line changes it: the first
      non-empty value wins, whatever the file says later. */
  lemma {:induction false} FirstNonEmptyWins(vars: Environment, ls: seq<Line>, key: string)
    requires Getenv(vars, key) != ""
    ensures Getenv(ApplyLines(vars, ls), key) == Getenv(vars, key)
    decreases |ls|
  {
    if ls != [] {
      FirstNonEmptyWins(vars, ls[..|ls| - 1], key);
    }
  }

  /** An empty value does not hold the key: after a line "KEY=" a later
      line for the same key still sets it, unless os.Setenv refuses that
      value for holding a NUL, and then the key stays empty. */
  lemma EmptyValueDoesNotHold(vars: Environment, first: string, second: string, key: string, value: string)
    requires Getenv(vars, key) == ""
    requires ParseLine(first) == Assign(key, "") && ParseLine(second) == Assign(key, value)
    ensures '\0' !in key && '\0' !in value ==> Getenv(ApplyLines(vars, ParseLines([first, second])), key) == value
    ensures '\0' in key || '\0' in value ==> Getenv(ApplyLines(vars, ParseLines([first, second])), key) == ""
  {
    var ls := ParseLines([first, second]);
    ParsedKey(second);
    ApplyTwoLines(vars, ls);
  }

  /** A line whose value holds a NUL sets nothing, so it does not hold the
      key either: a later line for the same key still sets it. */
  lemma NulValueIgnored(vars: Environment, first: string, second: string, key: string, bad: string, value: string)
    requires Getenv(vars, key) == ""
    requires ParseLine(first) == Assign(key, bad) && '\0' in bad
    requires ParseLine(second) == Assign(key, value) && '\0' !in key && '\0' !in value
    ensures Assigned(vars, ParseLine(first)) == vars
    ensures Getenv(ApplyLines(vars, ParseLines([first, second])), key) == value
  {
    var ls := ParseLines([first, second]);
    ParsedKey(second);
    ApplyTwoLines(vars, ls);
  }

  lemma ApplyTwoLines(vars: Environment, ls: seq<Line>)
    requires |ls| == 2
    ensures ApplyLines(vars, ls) == Assigned(Assigned(vars, ls[0]), ls[1])
  {
    ApplyLinesStep(vars, ls, 0);
    ApplyLinesStep(vars, ls, 1);
    assert ls[..2] == ls;
    assert ls[..0] == [];
  }
}
