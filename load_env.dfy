/**
 * `load_env_file`: reads `KEY=value` lines from an env file into the process
 * environment. Blank lines, comment lines, lines without `=`, empty keys or
 * values and the placeholder value `your_<key>_here` are skipped; one pair of
 * matching quotes around a value is removed.
 *
 * The file system is a parameter: the file is missing, is read as a list of
 * lines, or fails to read after some lines (a decoding error, a directory).
 */
module LoadEnv {
  import opened Text

  /** The characters `str.isspace` holds for, which `str.strip` removes. */
  predicate IsPySpace(c: char) {
    c == ' ' || '\t' <= c <= '\r' || '\U{1C}' <= c <= '\U{1F}' || c == '\U{85}' || c == '\U{A0}'
    || c == '\U{1680}' || '\U{2000}' <= c <= '\U{200A}' || c == '\U{2028}' || c == '\U{2029}'
    || c == '\U{202F}' || c == '\U{205F}' || c == '\U{3000}'
  }

  predicate AllPySpace(s: string) {
    forall i :: 0 <= i < |s| ==> IsPySpace(s[i])
  }

  function StripStart(s: string): (r: string)
    ensures |r| <= |s| && r == s[|s| - |r|..]
    ensures AllPySpace(s[..|s| - |r|])
    ensures r != [] ==> !IsPySpace(r[0])
  {
    if s != [] && IsPySpace(s[0]) then
      var r := StripStart(s[1..]);
      assert s[..|s| - |r|] == [s[0]] + s[1..][..|s| - 1 - |r|];
      r
    else s
  }

  function StripEnd(s: string): (r: string)
    ensures |r| <= |s| && r == s[..|r|]
    ensures AllPySpace(s[|r|..])
    ensures r != [] ==> !IsPySpace(r[|r| - 1])
  {
    if s != [] && IsPySpace(s[|s| - 1]) then
      var r := StripEnd(s[..|s| - 1]);
      assert s[|r|..] == s[..|s| - 1][|r|..] + [s[|s| - 1]];
      r
    else s
  }

  /** Whitespace removed at both ends: `s.strip()`. */
  function Strip(s: string): (r: string)
    ensures r != [] ==> !IsPySpace(r[0]) && !IsPySpace(r[|r| - 1])
  {
    StripEnd(StripStart(s))
  }

  /** `r` is `s[k..k + |r|]`, and everything of `s` before and after it is whitespace. */
  predicate StripsAt(s: string, k: int, r: string) {
    0 <= k && k + |r| <= |s| && r == s[k..k + |r|] && AllPySpace(s[..k]) && AllPySpace(s[k + |r|..])
  }

  /** `s.strip()` is `s` less the whitespace at its two ends, and nothing else. */
  lemma {:induction false} StripIsInfix(s: string)
    ensures StripsAt(s, |s| - |StripStart(s)|, Strip(s))
  {
    StrippedSlice(s, StripStart(s), Strip(s));
  }

  /** The slice arithmetic behind `StripIsInfix`, stated for the two halves' contracts alone. */
  lemma StrippedSlice(s: string, t: string, r: string)
    requires |t| <= |s| && t == s[|s| - |t|..] && AllPySpace(s[..|s| - |t|])
    requires |r| <= |t| && r == t[..|r|] && AllPySpace(t[|r|..])
    ensures StripsAt(s, |s| - |t|, r)
  {
    SuffixPrefix(s, t, r);
  }

  /** A string with no whitespace at either end is its own strip. */
  lemma StripNoOp(s: string)
    requires s != [] ==> !IsPySpace(s[0]) && !IsPySpace(s[|s| - 1])
    ensures Strip(s) == s
  {
  }

  /** The value the template file carries for `key`: `f"your_{key.lower()}_here"`. */
  function Placeholder(key: string): string {
    "your_" + ToLower(key) + "_here"
  }

  /** The value is wrapped in a matching pair of double or of single quotes (a lone quote counts). */
  predicate Quoted(v: string) {
    v != [] && ((v[0] == '"' && v[|v| - 1] == '"') || (v[0] == '\'' && v[|v| - 1] == '\''))
  }

  /** `value[1:-1]` when quoted; a lone quote becomes empty. */
  function Unquote(v: string): (r: string)
    ensures Quoted(v) ==> |r| == if |v| >= 2 then |v| - 2 else 0
    ensures Quoted(v) && |v| >= 2 ==> v == [v[0]] + r + [v[0]]
    ensures !Quoted(v) ==> r == v
  {
    if !Quoted(v) then v else if |v| >= 2 then v[1..|v| - 1] else ""
  }

  /** What one line of the file does. */
  datatype Line = Skip | Assign(key: string, value: string)

  /** The body of the `for line in f` loop, without the assignment itself. */
  function ParseLine(raw: string): (r: Line)
    ensures Strip(raw) == [] || Strip(raw)[0] == '#' || '=' !in raw ==> r == Skip
    ensures r.Assign? ==> r.key != [] && r.value != [] && r.value != Placeholder(r.key)
    ensures r.Assign? ==> '=' !in r.key && Strip(r.key) == r.key
  {
    var line := Strip(raw);
    if line == [] || line[0] == '#' then Skip
    else
      var i := IndexOf(line, '=');
      if i < 0 then
        assert '=' !in line;
        Skip
      else
        assert '=' !in line[..i];
        Assignment(line[..i], line[i + 1..])
  }

  /** `line.split('=', 1)` has given `keyPart` and `valuePart`: strip both, unquote the value, and filter. */
  function Assignment(keyPart: string, valuePart: string): (r: Line)
    ensures r.Assign? ==> r.key != [] && r.value != [] && r.value != Placeholder(r.key)
    ensures r.Assign? ==> Strip(r.key) == r.key && forall c :: c in r.key ==> c in keyPart
  {
    var key := Strip(keyPart);
    var value := Unquote(Strip(valuePart));
    if key != [] && value != [] && value != Placeholder(key) then Assign(key, value) else Skip
  }

  /** A line that has no whitespace at its ends and starts with a key free of `=` parses as that key and the rest. */
  lemma ParseLineSplits(key: string, rest: string)
    requires key != [] && '=' !in key && key[0] != '#'
    requires !IsPySpace(key[0])
    requires rest != [] ==> !IsPySpace(rest[|rest| - 1])
    ensures ParseLine(key + "=" + rest) == Assignment(key, rest)
  {
    var line := key + "=" + rest;
    assert line[0] == key[0];
    StripNoOp(line);
    IndexOfAfterKey(key, rest);
    assert line[..|key|] == key;
    assert line[|key| + 1..] == rest;
  }

  /** A line `KEY=value` with a bare value, neither padded nor quoted, assigns exactly that. */
  lemma ParseLineRoundTrip(key: string, value: string)
    requires key != [] && '=' !in key && key[0] != '#'
    requires !IsPySpace(key[0]) && !IsPySpace(key[|key| - 1])
    requires value != [] && !IsPySpace(value[0]) && !IsPySpace(value[|value| - 1])
    requires !Quoted(value) && value != Placeholder(key)
    ensures ParseLine(key + "=" + value) == Assign(key, value)
  {
    ParseLineSplits(key, value);
    StripNoOp(key);
    StripNoOp(value);
  }

  /** A line `KEY="value"` assigns the text between the quotes, spaces included. */
  lemma ParseLineQuotedRoundTrip(key: string, value: string)
    requires key != [] && '=' !in key && key[0] != '#'
    requires !IsPySpace(key[0]) && !IsPySpace(key[|key| - 1])
    requires value != [] && value != Placeholder(key)
    ensures ParseLine(key + "=" + ("\"" + value + "\"")) == Assign(key, value)
  {
    var quoted := "\"" + value + "\"";
    ParseLineSplits(key, quoted);
    StripNoOp(key);
    StripNoOp(quoted);
    assert Quoted(quoted);
    assert quoted[1..|quoted| - 1] == value;
  }

  /** The template's placeholder line is skipped. */
  lemma PlaceholderSkipped(key: string)
    requires key != [] && '=' !in key && key[0] != '#'
    requires !IsPySpace(key[0]) && !IsPySpace(key[|key| - 1])
    ensures ParseLine(key + "=" + Placeholder(key)) == Skip
  {
    var value := Placeholder(key);
    PlaceholderIsBare(key);
    ParseLineSplits(key, value);
    StripNoOp(key);
  }

  /** The placeholder is neither padded nor quoted. */
  lemma PlaceholderIsBare(key: string)
    ensures var value := Placeholder(key);
      value != [] && !IsPySpace(value[|value| - 1]) && Unquote(Strip(value)) == value
  {
    var value := Placeholder(key);
    assert value[0] == 'y' && value[|value| - 1] == 'e';
    StripNoOp(value);
  }

  lemma IndexOfAfterKey(key: string, value: string)
    requires '=' !in key
    ensures IndexOf(key + "=" + value, '=') == |key|
  {
    var line := key + "=" + value;
    assert line[|key|] == '=';
    assert forall k :: 0 <= k < |key| ==> line[k] == key[k];
  }

  // ---------------------------------------------------------------------------
  // The loop over the file
  // ---------------------------------------------------------------------------

  /** `os.environ[key] = value` raises for an embedded NUL character. */
  predicate Rejected(key: string, value: string) {
    '\0' in key || '\0' in value
  }

  /** Every line parsed. */
  function ParseAll(lines: seq<string>): (r: seq<Line>)
    ensures |r| == |lines|
    ensures forall i :: 0 <= i < |lines| ==> r[i] == ParseLine(lines[i])
  {
    seq(|lines|, i requires 0 <= i < |lines| => ParseLine(lines[i]))
  }

  /**
   * The environment after the loop over the parsed lines, and whether the
   * loop ran to the end; a rejected assignment raises, which ends the loop
   * with the earlier assignments kept.
   */
  function ApplyLines(env: map<string, string>, lines: seq<Line>): (r: (bool, map<string, string>))
    ensures forall k :: k in env ==> k in r.1
  {
    if lines == [] then (true, env)
    else
      var before := ApplyLines(env, lines[..|lines| - 1]);
      if !before.0 then before else Step(before.1, lines[|lines| - 1])
  }

  /** One line applied to the environment: false when its assignment raises. */
  function Step(env: map<string, string>, line: Line): (bool, map<string, string>) {
    match line
    case Skip => (true, env)
    case Assign(key, value) => if Rejected(key, value) then (false, env) else (true, env[key := value])
  }

  /** The env file as the loader finds it. */
  datatype EnvFile = Missing | Lines(lines: seq<string>) | ReadError(before: seq<string>)

  /** `load_env_file`'s result and the environment it leaves behind. */
  function Load(file: EnvFile, env: map<string, string>): (bool, map<string, string>) {
    match file
    case Missing => (false, env)
    case Lines(lines) => ApplyLines(env, ParseAll(lines))
    case ReadError(before) => (false, ApplyLines(env, ParseAll(before)).1)
  }

  /** `lines[i]` assigns `key`. */
  predicate AssignsKey(lines: seq<Line>, i: int, key: string)
    requires 0 <= i < |lines|
  {
    lines[i].Assign? && lines[i].key == key
  }

  /** A variable no line assigns keeps what it had (or stays unset). */
  lemma {:induction false} UnassignedKeyUntouched(env: map<string, string>, lines: seq<Line>, key: string)
    requires forall i :: 0 <= i < |lines| ==> !AssignsKey(lines, i, key)
    ensures key in ApplyLines(env, lines).1 <==> key in env
    ensures key in env ==> ApplyLines(env, lines).1[key] == env[key]
  {
    if lines != [] {
      var init := lines[..|lines| - 1];
      forall i | 0 <= i < |init| ensures !AssignsKey(init, i, key) {
        assert !AssignsKey(lines, i, key);
      }
      UnassignedKeyUntouched(env, init, key);
      assert !AssignsKey(lines, |lines| - 1, key);
    }
  }

  /** When the loop runs to the end, a variable holds the value of the last line that assigns it. */
  lemma {:induction false} LastAssignmentWins(env: map<string, string>, lines: seq<Line>, i: int)
    requires 0 <= i < |lines| && lines[i].Assign?
    requires forall j :: i < j < |lines| ==> !AssignsKey(lines, j, lines[i].key)
    requires ApplyLines(env, lines).0
    ensures lines[i].key in ApplyLines(env, lines).1
    ensures ApplyLines(env, lines).1[lines[i].key] == lines[i].value
  {
    var init := lines[..|lines| - 1];
    var key := lines[i].key;
    assert ApplyLines(env, init).0;
    if i < |lines| - 1 {
      assert init[i] == lines[i];
      forall j | i < j < |init| ensures !AssignsKey(init, j, key) {
        assert !AssignsKey(lines, j, key);
      }
      LastAssignmentWins(env, init, i);
      assert !AssignsKey(lines, |lines| - 1, key);
    }
  }

  /** A run to the end means no assignment was rejected; a failed run stops at the first rejected one. */
  lemma {:induction false} CompletesIffNoRejection(env: map<string, string>, lines: seq<Line>)
    ensures ApplyLines(env, lines).0 <==> forall i :: 0 <= i < |lines| ==> !RejectedLine(lines[i])
  {
    if lines != [] {
      var init := lines[..|lines| - 1];
      CompletesIffNoRejection(env, init);
      assert forall i :: 0 <= i < |init| ==> init[i] == lines[i];
    }
  }

  predicate RejectedLine(line: Line) {
    line.Assign? && Rejected(line.key, line.value)
  }

  /** A failed run keeps the assignments made before the failure: stopping is final. */
  lemma {:induction false} StopIsFinal(env: map<string, string>, lines: seq<Line>, more: seq<Line>)
    requires !ApplyLines(env, lines).0
    ensures ApplyLines(env, lines + more) == ApplyLines(env, lines)
    decreases |more|
  {
    if more != [] {
      StopIsFinal(env, lines, more[..|more| - 1]);
      assert (lines + more)[..|lines + more| - 1] == lines + more[..|more| - 1];
    } else {
      assert lines + more == lines;
    }
  }

  lemma StopAt(env: map<string, string>, lines: seq<Line>, i: int)
    requires 0 <= i < |lines| && !ApplyLines(env, lines[..i + 1]).0
    ensures ApplyLines(env, lines) == ApplyLines(env, lines[..i + 1])
  {
    StopIsFinal(env, lines[..i + 1], lines[i + 1..]);
    assert lines[..i + 1] + lines[i + 1..] == lines;
  }

  /** The loop over one more line, after a prefix that ran to the end. */
  lemma ApplyOneMore(env: map<string, string>, lines: seq<Line>, i: int)
    requires 0 <= i < |lines| && ApplyLines(env, lines[..i]).0
    ensures ApplyLines(env, lines[..i + 1]) == Step(ApplyLines(env, lines[..i]).1, lines[i])
  {
    assert lines[..i + 1][..i] == lines[..i];
  }

  /** The process environment, `os.environ`. */
  class Environ {
    var vars: map<string, string>

    constructor (vars: map<string, string>)
      ensures this.vars == vars
    {
      this.vars := vars;
    }

    /** `os.environ[key] = value`; false where the assignment raises. */
    method SetItem(key: string, value: string) returns (ok: bool)
      modifies this
      ensures ok == !Rejected(key, value)
      ensures vars == if ok then old(vars)[key := value] else old(vars)
    {
      if Rejected(key, value) {
        return false;
      }
      vars := vars[key := value];
      return true;
    }
  }

  /** `load_env_file(path)`, with the file as it is found. */
  method LoadEnvFile(file: EnvFile, environ: Environ) returns (loaded: bool)
    modifies environ
    ensures (loaded, environ.vars) == Load(file, old(environ.vars))
  {
    if file.Missing? {
      return false;
    }
    var lines := if file.Lines? then file.lines else file.before;
    var completed := ReadLines(lines, environ);
    loaded := completed && file.Lines?;
  }

  /** The `for line in f` loop; false when an assignment raised. */
  method ReadLines(lines: seq<string>, environ: Environ) returns (completed: bool)
    modifies environ
    ensures (completed, environ.vars) == ApplyLines(old(environ.vars), ParseAll(lines))
  {
    ghost var env0 := environ.vars;
    ghost var parsed := ParseAll(lines);
    var i := 0;
    while i < |lines|
      invariant 0 <= i <= |lines|
      invariant (true, environ.vars) == ApplyLines(env0, parsed[..i])
    {
      ApplyOneMore(env0, parsed, i);
      var ok := ReadLine(lines[i], environ);
      if !ok {
        StopAt(env0, parsed, i);
        return false;
      }
      i := i + 1;
    }
    assert parsed[..i] == parsed;
    return true;
  }

  /** One pass of the loop body: parse the line, then assign. */
  method ReadLine(raw: string, environ: Environ) returns (ok: bool)
    modifies environ
    ensures (ok, environ.vars) == Step(old(environ.vars), ParseLine(raw))
  {
    var line := ParseLine(raw);
    ok := true;
    if line.Assign? {
      ok := environ.SetItem(line.key, line.value);
    }
  }
}
