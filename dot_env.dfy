/** The `.env` loader found at the top of both main.py and
    tests/test-all.py: each line of the file is trimmed, skipped when it is
    blank, a comment or has no '=', and otherwise split at its first '='
    into a variable that is set only if the environment does not have it. */
module DotEnv {
  import opened Wrappers
  import opened PyStr

  const EQUALS: set<char> := {'='}
  const DOUBLE_QUOTE: set<char> := {'"'}
  const SINGLE_QUOTE: set<char> := {'\''}

  const QUOTES: set<char> := {'"', '\''}

  /** The value side of a line: `v.strip().strip('"').strip("'")`. The
      stripped text loses quote characters at its ends and nothing else;
      a double quote inside single quotes survives. */
  function EnvValue(raw: string): (v: string)
    ensures v == [] || (v[0] != '\'' && v[|v| - 1] != '\'')
    ensures var s := Strip(raw);
      exists i, j :: (0 <= i <= j <= |s| && v == s[i..j]
        && forall k :: (0 <= k < i || j <= k < |s|) ==> s[k] in QUOTES)
  {
    EnvValueIsInfix(Strip(raw));
    Trim(Trim(Strip(raw), DOUBLE_QUOTE), SINGLE_QUOTE)
  }

  /** Stripping double and then single quotes leaves an infix cut only at
      quote characters. */
  lemma EnvValueIsInfix(s: string)
    ensures var v := Trim(Trim(s, DOUBLE_QUOTE), SINGLE_QUOTE);
      exists i, j :: (0 <= i <= j <= |s| && v == s[i..j]
        && forall k :: (0 <= k < i || j <= k < |s|) ==> s[k] in QUOTES)
  {
    var t := Trim(s, DOUBLE_QUOTE);
    var v := Trim(t, SINGLE_QUOTE);
    TrimCutAt(s, DOUBLE_QUOTE);
    TrimCutAt(t, SINGLE_QUOTE);
    InfixOfInfix(s, t, v, RunLength(s, DOUBLE_QUOTE), RunLength(t, SINGLE_QUOTE));
  }

  /** `t` is `s[a..a + |t|]` and every character of `s` around it is in `cs`. */
  predicate CutAt(s: string, t: string, a: nat, cs: set<char>) {
    a + |t| <= |s| && t == s[a..a + |t|]
    && (forall k :: 0 <= k < a ==> s[k] in cs)
    && (forall k :: a + |t| <= k < |s| ==> s[k] in cs)
  }

  /** A trim is cut out of its text at characters of the set. */
  lemma TrimCutAt(s: string, cs: set<char>)
    ensures CutAt(s, Trim(s, cs), RunLength(s, cs), cs)
  {
    TrimIsInfix(s, cs);
  }

  /** An infix of an infix, each cut only at quote characters. */
  lemma InfixOfInfix(s: string, t: string, v: string, a: nat, b: nat)
    requires CutAt(s, t, a, DOUBLE_QUOTE) && CutAt(t, v, b, SINGLE_QUOTE)
    ensures exists i, j :: (0 <= i <= j <= |s| && v == s[i..j]
      && forall k :: (0 <= k < i || j <= k < |s|) ==> s[k] in QUOTES)
  {
    var i, j := a + b, a + b + |v|;
    assert forall k :: a <= k < a + |t| ==> s[k] == t[k - a];
    assert forall k :: 0 <= k < |v| ==> v[k] == t[b + k] == s[i + k];
    assert v == s[i..j];
  }

  /** One line of the file: the variable it sets, or None for a line the
      loader skips. */
  function ParseEnvLine(line: string): (r: Option<(string, string)>)
    ensures r.None? <==> var t := Strip(line); t == [] || t[0] == '#' || '=' !in t
    ensures r.Some? ==> var key := r.value.0;
      (key == [] || (!IsSpace(key[0]) && !IsSpace(key[|key| - 1])))
      && forall i :: 0 <= i < |key| ==> key[i] != '='
    ensures r.Some? ==> var value := r.value.1;
      value == [] || (value[0] != '\'' && value[|value| - 1] != '\'')
  {
    var t := Strip(line);
    if t == [] || t[0] == '#' || '=' !in t then None
    else
      var i := FirstIn(t, EQUALS);
      assert i < |t| by {
        var j :| 0 <= j < |t| && t[j] == '=';
      }
      var key := Strip(t[..i]);
      assert forall k :: 0 <= k < |key| ==> key[k] in t[..i];
      Some((key, EnvValue(t[i + 1..])))
  }

  /** Whitespace around a line, including its final newline, does not
      change what it sets. */
  lemma ParseEnvLinePadded(lead: string, line: string, trail: string)
    requires forall i :: 0 <= i < |lead| ==> IsSpace(lead[i])
    requires forall i :: 0 <= i < |trail| ==> IsSpace(trail[i])
    ensures ParseEnvLine(lead + line + trail) == ParseEnvLine(line)
  {
    TrimPadding(lead, line, trail, WHITESPACE);
  }

  /** A key the loader can set: non-empty, no '=', not a comment, and no
      whitespace at either end. */
  predicate IsEnvKey(key: string) {
    && key != []
    && key[0] != '#' && !IsSpace(key[0]) && !IsSpace(key[|key| - 1])
    && forall i :: 0 <= i < |key| ==> key[i] != '='
  }

  /** A value that survives the loader's trimming unchanged. */
  predicate IsPlainValue(value: string) {
    value == [] || (
      && !IsSpace(value[0]) && value[0] != '"' && value[0] != '\''
      && !IsSpace(value[|value| - 1]) && value[|value| - 1] != '"' && value[|value| - 1] != '\'')
  }

  /** A value written bare, in double quotes or in single quotes reads back
      as itself. */
  lemma EnvValueOfQuoted(value: string, quote: string)
    requires IsPlainValue(value)
    requires quote == "" || quote == "\"" || quote == "'"
    ensures EnvValue(quote + value + quote) == value
  {
    var raw := quote + value + quote;
    TrimOfTrimmed(raw, WHITESPACE);
    if quote == "\"" {
      TrimPadding(quote, value, quote, DOUBLE_QUOTE);
      TrimOfTrimmed(value, DOUBLE_QUOTE);
      TrimOfTrimmed(value, SINGLE_QUOTE);
    } else if quote == "'" {
      TrimOfTrimmed(raw, DOUBLE_QUOTE);
      TrimPadding(quote, value, quote, SINGLE_QUOTE);
      TrimOfTrimmed(value, SINGLE_QUOTE);
    } else {
      assert raw == value;
      TrimOfTrimmed(value, DOUBLE_QUOTE);
      TrimOfTrimmed(value, SINGLE_QUOTE);
    }
  }

  /** A line `key=raw` splits at the '=' after the key. */
  lemma SplitAtFirstEquals(key: string, raw: string)
    requires IsEnvKey(key)
    ensures var line := key + "=" + raw;
      && '=' in line
      && FirstIn(line, EQUALS) == |key|
      && line[..|key|] == key
      && line[|key| + 1..] == raw
  {
    var line := key + "=" + raw;
    assert line[|key|] == '=';
    assert forall i :: 0 <= i < |key| ==> line[i] == key[i];
    FirstInAt(line, EQUALS, |key|);
  }

  /** `key=raw` sets the key to the loader's reading of `raw`. */
  lemma ParseEnvLineOfRaw(key: string, raw: string)
    requires IsEnvKey(key)
    requires raw == [] || !IsSpace(raw[|raw| - 1])
    ensures ParseEnvLine(key + "=" + raw) == Some((key, EnvValue(raw)))
  {
    var line := key + "=" + raw;
    assert line[0] == key[0];
    assert line[|line| - 1] == if raw == [] then '=' else raw[|raw| - 1];
    TrimOfTrimmed(line, WHITESPACE);
    SplitAtFirstEquals(key, raw);
    TrimOfTrimmed(key, WHITESPACE);
  }

  /** `KEY=value`, `KEY="value"` and `KEY='value'` set KEY to value;
      the value may itself contain '='. */
  lemma ParseEnvLineOfAssignment(key: string, value: string, quote: string)
    requires IsEnvKey(key) && IsPlainValue(value)
    requires quote == "" || quote == "\"" || quote == "'"
    ensures ParseEnvLine(key + "=" + (quote + value + quote)) == Some((key, value))
  {
    var raw := quote + value + quote;
    assert raw != [] ==> raw[|raw| - 1] == if quote == "" then value[|value| - 1] else quote[0];
    ParseEnvLineOfRaw(key, raw);
    EnvValueOfQuoted(value, quote);
  }

  /** Any line whose stripped text is `name=raw`, with no '=' in `name`
      and no leading '#', sets the stripped name to the loader's reading
      of `raw`: `partition` splits at the first '='. */
  lemma ParseEnvLineSplits(line: string, name: string, raw: string)
    requires Strip(line) == name + "=" + raw
    requires forall k :: 0 <= k < |name| ==> name[k] != '='
    requires name == [] || name[0] != '#'
    ensures ParseEnvLine(line) == Some((Strip(name), EnvValue(raw)))
  {
    var t := Strip(line);
    assert t[0] != '#' by {
      assert t[0] == if name == [] then '=' else name[0];
    }
    assert t[|name|] == '=';
    assert forall k :: 0 <= k < |name| ==> t[k] == name[k];
    FirstInAt(t, EQUALS, |name|);
    assert t[..|name|] == name;
    assert t[|name| + 1..] == raw;
  }

  /** A line that reads `=raw` once stripped sets the empty name. */
  lemma ParseEnvLineOfEmptyName(line: string, raw: string)
    requires Strip(line) == "=" + raw
    ensures ParseEnvLine(line) == Some(("", EnvValue(raw)))
    ensures Defines(line, "")
  {
    assert Strip(line) == "" + "=" + raw;
    ParseEnvLineSplits(line, "", raw);
    assert Strip("") == "" by {
      TrimOfTrimmed("", WHITESPACE);
    }
  }

  /** A variable `os.environ` can store: `putenv` refuses an empty name
      (the OS reports EINVAL, raised as OSError) and a NUL in a name or
      value (ValueError). */
  predicate Storable(key: string, value: string) {
    key != [] && '\0' !in key && '\0' !in value
  }

  /** `env.setdefault(key, value)`: the key is added when missing, and no
      variable that is already set changes; None when adding it raises. */
  function WithDefault(env: map<string, string>, key: string, value: string): (r: Option<map<string, string>>)
    ensures r.None? <==> key !in env && !Storable(key, value)
    ensures r.Some? ==> r.value.Keys == env.Keys + {key}
    ensures r.Some? ==> forall k :: k in env ==> r.value[k] == env[k]
    ensures r.Some? && key !in env ==> r.value[key] == value
  {
    if key in env then Some(env)
    else if Storable(key, value) then Some(env[key := value])
    else None
  }

  /** The environment after the loader has read `lines` in order, or None
      when one of its `setdefault` calls raises: the exception is not
      caught, so the program stops there. */
  function LoadEnv(env: map<string, string>, lines: seq<string>): (r: Option<map<string, string>>)
    ensures r.Some? ==> forall k :: k in env ==> k in r.value && r.value[k] == env[k]
    decreases |lines|
  {
    if lines == [] then Some(env)
    else
      match LoadEnv(env, lines[..|lines| - 1])
      case None => None
      case Some(before) =>
        match ParseEnvLine(lines[|lines| - 1])
        case None => Some(before)
        case Some((key, value)) => WithDefault(before, key, value)
  }

  /** The line sets `key`. */
  predicate Defines(line: string, key: string) {
    ParseEnvLine(line).Some? && ParseEnvLine(line).value.0 == key
  }

  /** A variable no line defines is exactly as it was, set or not. */
  lemma {:induction false} LoadEnvUnmentioned(env: map<string, string>, lines: seq<string>, key: string)
    requires forall i :: 0 <= i < |lines| ==> !Defines(lines[i], key)
    ensures LoadEnv(env, lines).Some? ==> (key in LoadEnv(env, lines).value <==> key in env)
    ensures LoadEnv(env, lines).Some? && key in env ==> LoadEnv(env, lines).value[key] == env[key]
    decreases |lines|
  {
    if lines != [] {
      var init := lines[..|lines| - 1];
      assert forall i :: 0 <= i < |init| ==> init[i] == lines[i];
      LoadEnvUnmentioned(env, init, key);
      assert !Defines(lines[|lines| - 1], key);
    }
  }

  /** A variable that was not set takes the value from the first line
      that defines it; later lines for the same key have no effect. */
  lemma {:induction false} LoadEnvFirstWins(env: map<string, string>, lines: seq<string>, key: string, i: nat)
    requires key !in env
    requires i < |lines| && Defines(lines[i], key)
    requires forall j :: 0 <= j < i ==> !Defines(lines[j], key)
    ensures LoadEnv(env, lines).Some? ==> key in LoadEnv(env, lines).value
    ensures LoadEnv(env, lines).Some? ==> LoadEnv(env, lines).value[key] == ParseEnvLine(lines[i]).value.1
    decreases |lines|
  {
    var init := lines[..|lines| - 1];
    assert forall j :: 0 <= j < |init| ==> init[j] == lines[j];
    if i == |lines| - 1 {
      LoadEnvUnmentioned(env, init, key);
    } else {
      LoadEnvFirstWins(env, init, key, i);
    }
  }

  /** Once the loader has raised, the lines after it are never read. */
  lemma {:induction false} LoadEnvStopsAtRaise(env: map<string, string>, lines: seq<string>, n: nat)
    requires n <= |lines| && LoadEnv(env, lines[..n]).None?
    ensures LoadEnv(env, lines).None?
    decreases |lines|
  {
    if n < |lines| {
      var init := lines[..|lines| - 1];
      assert init[..n] == lines[..n];
      LoadEnvStopsAtRaise(env, init, n);
    } else {
      assert lines[..n] == lines;
    }
  }

  /** A line with nothing before its '=', such as `=v`, makes the loader
      raise unless the empty name was somehow set already. */
  lemma {:induction false} LoadEnvRejectsEmptyName(env: map<string, string>, lines: seq<string>, i: nat)
    requires "" !in env
    requires i < |lines| && Defines(lines[i], "")
    ensures LoadEnv(env, lines).None?
    decreases |lines|
  {
    var init := lines[..|lines| - 1];
    if exists j :: 0 <= j < |lines| - 1 && Defines(lines[j], "") {
      var j :| 0 <= j < |lines| - 1 && Defines(lines[j], "");
      assert init[j] == lines[j];
      LoadEnvRejectsEmptyName(env, init, j);
    } else {
      assert forall j :: 0 <= j < |init| ==> !Defines(init[j], "") by {
        assert forall j :: 0 <= j < |init| ==> init[j] == lines[j];
      }
      LoadEnvUnmentioned(env, init, "");
      RaisesAtEmptyName(env, lines);
    }
  }

  /** The line that raises: it defines the empty name, which is not set. */
  lemma RaisesAtEmptyName(env: map<string, string>, lines: seq<string>)
    requires lines != [] && Defines(lines[|lines| - 1], "")
    requires LoadEnv(env, lines[..|lines| - 1]).Some? ==> "" !in LoadEnv(env, lines[..|lines| - 1]).value
    ensures LoadEnv(env, lines).None?
  {
  }

  /** One more line: the loader's state after line `i` from its state
      before it. */
  lemma LoadEnvNext(env: map<string, string>, lines: seq<string>, i: nat)
    requires i < |lines|
    ensures LoadEnv(env, lines[..i + 1]) ==
      (var before := LoadEnv(env, lines[..i]);
       var parsed := ParseEnvLine(lines[i]);
       if before.None? then None
       else if parsed.None? then before
       else WithDefault(before.value, parsed.value.0, parsed.value.1))
  {
    assert lines[..i + 1][..i] == lines[..i];
  }

  /** The process environment, which the loader updates in place. */
  class Environ {
    var vars: map<string, string>

    constructor(initial: map<string, string>)
      ensures vars == initial
    {
      vars := initial;
    }

    /** `os.environ.setdefault(key, value)`; `ok` is false when it raises,
        and then nothing changes. */
    method SetDefault(key: string, value: string) returns (ok: bool)
      modifies this
      ensures ok <==> WithDefault(old(vars), key, value).Some?
      ensures ok ==> vars == WithDefault(old(vars), key, value).value
      ensures !ok ==> vars == old(vars)
    {
      if key in vars {
        return true;
      }
      if !Storable(key, value) {
        return false;
      }
      vars := vars[key := value];
      return true;
    }

    /** The loader loop over the lines of the `.env` file. `ok` is false
        when a `setdefault` raises; the variables set by the lines before
        that one stay set. */
    method LoadDotEnv(lines: seq<string>) returns (ok: bool)
      modifies this
      ensures ok <==> LoadEnv(old(vars), lines).Some?
      ensures ok ==> vars == LoadEnv(old(vars), lines).value
      ensures !ok ==> exists n :: (0 <= n < |lines| && LoadEnv(old(vars), lines[..n]) == Some(vars)
        && LoadEnv(old(vars), lines[..n + 1]).None?)
    {
      var i := 0;
      while i < |lines|
        invariant 0 <= i <= |lines|
        invariant LoadEnv(old(vars), lines[..i]) == Some(vars)
      {
        var parsed := ParseEnvLine(lines[i]);
        LoadEnvNext(old(vars), lines, i);
        if parsed.Some? {
          ok := SetDefault(parsed.value.0, parsed.value.1);
          if !ok {
            LoadEnvStopsAtRaise(old(vars), lines, i + 1);
            return false;
          }
        }
        i := i + 1;
      }
      assert lines[..|lines|] == lines;
      return true;
    }
  }
}
