/**
 * The layered configuration resolver of src/git2_config.rs.
 *
 * Eight ranked sources are read in precedence order (GIT_PAGER, git-cli,
 * git-config-env, repository-local, global, XDG, system, PAGER); the first
 * typed read that succeeds wins, and when none succeeds the first source's
 * error is the answer. Fields either yield an optional value (RawField) or
 * fall back to a default (DefaultField). The sources form a closed variant:
 * in-memory sources built from environment pairs, and file-backed sources whose
 * git2 lookups are given as already-typed tables.
 */
module Git2Config {
  import opened Base
  import opened Text

  /** The `color.ui` setting. Its `Default` is `Auto`. */
  datatype ColorWhen = Always | Auto | Never

  datatype ConfigError =
    | FieldMissing                                 // an in-memory source has no value for the key
    | InvalidBool(text: string)                    // `str::parse::<bool>` refused the text
    | InvalidInt(text: string)                     // `str::parse::<i32>`/`<i64>` refused the text
    | LookupFailed(key: string)                    // git2 has no entry, or could not convert it
    | UnsupportedColor(text: string)               // `ColorWhen::from_str` refused the text
    | FailedToRead(field: string, cause: ConfigError) // the context `FieldReader` adds

  /** The values an in-memory source holds per key, in insertion order. */
  type ValueLists = map<string, seq<string>>

  /** Every key holds at least one value, as every map `from_env` builds does. */
  predicate NonEmptyLists(m: ValueLists) {
    forall k :: k in m ==> |m[k]| > 0
  }

  datatype Source =
      /** `InMemoryConfig`: all values pushed for a key, in insertion order. */
    | InMemory(name: string, values: ValueLists)
      /** `GitConfig`: git2's answers for one configuration file. `entries` holds the raw
          strings, the other maps what git2's typed getters answer (a key a typed map lacks
          is one git2 could not convert). */
    | GitFile(name: string, entries: map<string, string>, bools: map<string, bool>,
              ints: map<string, int>, paths: map<string, string>)

  /** A configuration file opened by git2: the only kind the file-backed fields hold. */
  type FileSource = s: Source | s.GitFile? witness GitFile("", map[], map[], map[], map[])

  /** What `get_source` of a git2-backed source reports: the name of `git2::Config`,
      not the file name kept in `GitConfig`. */
  const GIT2_SOURCE_NAME := "gitconfig"

  /** The capability a read uses: `get_source`, `get_bool`, `get_i32`, `get_i64`,
      `get_string` or `get_path`. */
  datatype Getter = SourceNameOf | BoolOf | I32Of | I64Of | StringOf | PathOf

  /** The value types a field can have; `ColorType` is the one `Parseable` type. */
  datatype FieldType = BoolType | I32Type | I64Type | StringType | PathType | ColorType

  datatype Value =
    | BoolVal(b: bool)
    | IntVal(i: int)
    | StrVal(s: string)
    | PathVal(p: string)
    | ColorVal(c: ColorWhen)

  /** The value has the shape the getter promises (an `i32` is in range, ...). */
  predicate Fits(v: Value, g: Getter) {
    match g
    case SourceNameOf => v.StrVal?
    case BoolOf => v.BoolVal?
    case I32Of => v.IntVal? && I32_MIN <= v.i <= I32_MAX
    case I64Of => v.IntVal? && I64_MIN <= v.i <= I64_MAX
    case StringOf => v.StrVal?
    case PathOf => v.PathVal?
  }

  predicate HasType(v: Value, ty: FieldType) {
    match ty
    case BoolType => v.BoolVal?
    case I32Type => v.IntVal? && I32_MIN <= v.i <= I32_MAX
    case I64Type => v.IntVal? && I64_MIN <= v.i <= I64_MAX
    case StringType => v.StrVal?
    case PathType => v.PathVal?
    case ColorType => v.ColorVal?
  }

  /** The text carried by a string-shaped value. */
  function AsText(v: Value): string {
    match v
    case StrVal(s) => s
    case PathVal(p) => p
    case _ => ""
  }

  // ----- ColorWhen -----

  /** `ColorWhen::from_str`. */
  function ParseColorWhen(s: string): (r: Result<ColorWhen, ConfigError>)
    ensures r == Ok(Always) <==> s == "always" || s == "true"
    ensures r == Ok(Auto) <==> s == "auto"
    ensures r == Ok(Never) <==> s == "never" || s == "false"
    ensures r.Err? ==> r.error == UnsupportedColor(s)
  {
    if s == "always" || s == "true" then Ok(Always)
    else if s == "auto" then Ok(Auto)
    else if s == "never" || s == "false" then Ok(Never)
    else Err(UnsupportedColor(s))
  }

  /** `ColorWhen::as_str`, which is also its `Display`. */
  function ColorAsStr(c: ColorWhen): (s: string)
    ensures ParseColorWhen(s) == Ok(c)
  {
    match c
    case Always => "always"
    case Auto => "auto"
    case Never => "never"
  }

  // ----- InMemoryConfig -----

  /** The values pushed for `key`, in order, while `from_env` walks `pairs`. */
  function ValuesFor(pairs: seq<(string, string)>, key: string): seq<string>
    decreases |pairs|
  {
    if |pairs| == 0 then []
    else ValuesFor(pairs[..|pairs| - 1], key)
         + (if pairs[|pairs| - 1].0 == key then [pairs[|pairs| - 1].1] else [])
  }

  lemma {:induction false} ValuesForAbsent(pairs: seq<(string, string)>, key: string)
    requires forall i :: 0 <= i < |pairs| ==> pairs[i].0 != key
    ensures ValuesFor(pairs, key) == []
    decreases |pairs|
  {
    if |pairs| > 0 {
      ValuesForAbsent(pairs[..|pairs| - 1], key);
    }
  }

  lemma {:induction false} ValuesForAppend(a: seq<(string, string)>, b: seq<(string, string)>, key: string)
    ensures ValuesFor(a + b, key) == ValuesFor(a, key) + ValuesFor(b, key)
    decreases |b|
  {
    if |b| == 0 {
      assert a + b == a;
    } else {
      assert (a + b)[..|a + b| - 1] == a + b[..|b| - 1];
      ValuesForAppend(a, b[..|b| - 1], key);
    }
  }

  /** The map `from_env` builds: keys are exactly the keys of `pairs`, each holding
      every value given for it, in order. */
  function Collect(pairs: seq<(string, string)>): (m: ValueLists)
    ensures forall k :: k in m <==> ValuesFor(pairs, k) != []
    ensures forall k :: k in m ==> m[k] == ValuesFor(pairs, k)
    decreases |pairs|
  {
    if |pairs| == 0 then map[]
    else
      var m := Collect(pairs[..|pairs| - 1]);
      var (k, v) := pairs[|pairs| - 1];
      m[k := (if k in m then m[k] else []) + [v]]
  }

  /** A key has values exactly when some pair names it. */
  lemma {:induction false} ValuesForNamed(pairs: seq<(string, string)>, key: string)
    ensures ValuesFor(pairs, key) != [] <==> exists i :: 0 <= i < |pairs| && pairs[i].0 == key
    decreases |pairs|
  {
    if |pairs| > 0 {
      var prefix := pairs[..|pairs| - 1];
      ValuesForNamed(prefix, key);
      if pairs[|pairs| - 1].0 == key {
        assert ValuesFor(pairs, key) != [];
      } else {
        assert ValuesFor(pairs, key) == ValuesFor(prefix, key);
        if exists i :: 0 <= i < |pairs| && pairs[i].0 == key {
          var i :| 0 <= i < |pairs| && pairs[i].0 == key;
          assert prefix[i] == pairs[i];
        }
      }
    }
  }

  /** The keys of the map `from_env` builds are the keys of `pairs`, and every list in it
      is non-empty. */
  lemma CollectKeys(pairs: seq<(string, string)>, key: string)
    ensures key in Collect(pairs) <==> exists i :: 0 <= i < |pairs| && pairs[i].0 == key
    ensures NonEmptyLists(Collect(pairs))
  {
    ValuesForNamed(pairs, key);
  }

  /** `InMemoryConfig::from_env`: pushes each value onto the list of its key. */
  method FromEnv(name: string, env: seq<(string, string)>) returns (src: Source)
    ensures src == InMemory(name, Collect(env))
  {
    var values: ValueLists := map[];
    for i := 0 to |env|
      invariant values == Collect(env[..i])
    {
      var (key, value) := env[i];
      assert env[..i + 1][..i] == env[..i];
      values := values[key := (if key in values then values[key] else []) + [value]];
    }
    assert env[..|env|] == env;
    src := InMemory(name, values);
  }

  /** The pairs `git_pager()`/`pager()` feed to `from_env`: the variable's value as `core.pager`. */
  function PagerPairs(value: Option<string>): seq<(string, string)> {
    match value
    case Some(v) => [("core.pager", v)]
    case None => []
  }

  /** The pairs `git_cli()` feeds to `from_env`: a parameter without a value means "true". */
  function CliPairs(params: seq<(string, Option<string>)>): (pairs: seq<(string, string)>)
    ensures |pairs| == |params|
    ensures forall i :: 0 <= i < |params| ==> pairs[i] == (params[i].0, params[i].1.GetOr("true"))
  {
    seq(|params|, i requires 0 <= i < |params| => (params[i].0, params[i].1.GetOr("true")))
  }

  /** `InMemoryConfig::get_str`: the last value pushed for the key. (An empty list, which
      `from_env` never builds, reads as missing.) */
  function GetStr(values: ValueLists, key: string): Result<string, ConfigError> {
    if key in values && |values[key]| > 0 then Ok(values[key][|values[key]| - 1]) else Err(FieldMissing)
  }

  /** After `from_env`, reading a key answers the last value pushed for it. */
  lemma LastPushedWins(pairs: seq<(string, string)>, key: string, value: string, later: seq<(string, string)>)
    requires forall i :: 0 <= i < |later| ==> later[i].0 != key
    ensures GetStr(Collect(pairs + [(key, value)] + later), key) == Ok(value)
  {
    var all := pairs + [(key, value)] + later;
    assert all[|pairs|].0 == key;
    ValuesForAppend(pairs + [(key, value)], later, key);
    ValuesForAbsent(later, key);
    ValuesForAppend(pairs, [(key, value)], key);
    assert ValuesFor([(key, value)], key) == ValuesFor([], key) + [value];
  }

  lemma {:induction false} CliPairsAppend(a: seq<(string, Option<string>)>, b: seq<(string, Option<string>)>)
    ensures CliPairs(a + b) == CliPairs(a) + CliPairs(b)
  {
  }

  /** A `-c key` without a value makes `key` read as `true`; a `-c key=v` makes it read as
      the string `v` -- when it is the last `-c` for the key. */
  lemma CliParamReads(before: seq<(string, Option<string>)>, key: string, value: Option<string>,
                      later: seq<(string, Option<string>)>)
    requires forall i :: 0 <= i < |later| ==> later[i].0 != key
    ensures var src := InMemory("git-cli", Collect(CliPairs(before + [(key, value)] + later)));
            (value.None? ==> SourceRead(src, BoolOf, key) == Ok(BoolVal(true))) &&
            (value.Some? ==> SourceRead(src, StringOf, key) == Ok(StrVal(value.value)))
  {
    CliLastPair(before, key, value, later);
    InMemoryReadsText("git-cli", Collect(CliPairs(before + [(key, value)] + later)), key, value.GetOr("true"));
  }

  /** An in-memory source whose last value for the key is `text` reads it as a string, and
      as the bool `true` when it is "true". */
  lemma InMemoryReadsText(name: string, values: ValueLists, key: string, text: string)
    requires GetStr(values, key) == Ok(text)
    ensures SourceRead(InMemory(name, values), StringOf, key) == Ok(StrVal(text))
    ensures text == "true" ==> SourceRead(InMemory(name, values), BoolOf, key) == Ok(BoolVal(true))
  {
  }

  /** The last `-c` parameter for a key gives its value, or "true" when it has none. */
  lemma CliLastPair(before: seq<(string, Option<string>)>, key: string, value: Option<string>,
                    later: seq<(string, Option<string>)>)
    requires forall i :: 0 <= i < |later| ==> later[i].0 != key
    ensures GetStr(Collect(CliPairs(before + [(key, value)] + later)), key) == Ok(value.GetOr("true"))
  {
    var text := value.GetOr("true");
    CliPairsAppend(before + [(key, value)], later);
    CliPairsAppend(before, [(key, value)]);
    assert CliPairs([(key, value)]) == [(key, text)];
    var l := CliPairs(later);
    assert forall i :: 0 <= i < |l| ==> l[i].0 != key by {
      forall i | 0 <= i < |l| ensures l[i].0 != key {
        assert l[i].0 == later[i].0;
      }
    }
    LastPushedWins(CliPairs(before), key, text, l);
  }

  /** The `get_i32`/`get_i64` of an in-memory source: the text parsed as an integer of the
      range `lo..=hi`; a string that does not parse is an error carrying it, and a missing
      key's error passes through. */
  function ReadInt(s: Result<string, ConfigError>, lo: int, hi: int): (r: Result<Value, ConfigError>)
    ensures r.Ok? ==> r.value.IntVal? && lo <= r.value.i <= hi
    ensures s.Err? ==> r == Err(s.error)
    ensures s.Ok? ==> (r.Ok? <==> ParseInteger(s.value, true, lo, hi).Some?)
    ensures s.Ok? && r.Ok? ==> r.value == IntVal(ParseInteger(s.value, true, lo, hi).value)
    ensures s.Ok? && r.Err? ==> r.error == InvalidInt(s.value)
  {
    match s
    case Err(e) => Err(e)
    case Ok(text) =>
      match ParseInteger(text, true, lo, hi)
      case Some(n) => Ok(IntVal(n))
      case None => Err(InvalidInt(text))
  }

  /** One source's answer to one getter (the `ConfigSource` impls of `InMemoryConfig`
      and `GitConfig`). */
  function SourceRead(src: Source, g: Getter, key: string): (r: Result<Value, ConfigError>)
    ensures r.Ok? ==> Fits(r.value, g)
    ensures src.InMemory? && g == BoolOf && key !in src.values ==> r == Ok(BoolVal(true))
    ensures src.InMemory? && g != BoolOf && key !in src.values ==> r == Err(FieldMissing)
    ensures src.InMemory? && g == SourceNameOf && key in src.values && |src.values[key]| > 0 ==>
              r == Ok(StrVal(src.name))
    ensures src.InMemory? && key in src.values && |src.values[key]| > 0 && (g == StringOf || g == PathOf) ==>
              r.Ok? && AsText(r.value) == src.values[key][|src.values[key]| - 1]
    ensures src.InMemory? && key in src.values && |src.values[key]| > 0 && g == I32Of ==>
              (r.Ok? <==> ParseInteger(src.values[key][|src.values[key]| - 1], true, I32_MIN, I32_MAX).Some?)
    ensures src.GitFile? && g == SourceNameOf ==>
              r == if key in src.entries then Ok(StrVal(GIT2_SOURCE_NAME)) else Err(LookupFailed(key))
  {
    match src
    case InMemory(name, values) =>
      var s := GetStr(values, key);
      (match g
      case SourceNameOf => if s.Ok? then Ok(StrVal(name)) else Err(s.error)
      case BoolOf =>
        var text := if s.Ok? then s.value else "true";
        (match ParseBool(text)
         case Some(b) => Ok(BoolVal(b))
         case None => Err(InvalidBool(text)))
      case I32Of => ReadInt(s, I32_MIN, I32_MAX)
      case I64Of => ReadInt(s, I64_MIN, I64_MAX)
      case StringOf => if s.Ok? then Ok(StrVal(s.value)) else Err(s.error)
      case PathOf => if s.Ok? then Ok(PathVal(s.value)) else Err(s.error))
    case GitFile(_, entries, bools, ints, paths) =>
      match g
      case SourceNameOf => if key in entries then Ok(StrVal(GIT2_SOURCE_NAME)) else Err(LookupFailed(key))
      case BoolOf => if key in bools then Ok(BoolVal(bools[key])) else Err(LookupFailed(key))
      case I32Of =>
        if key in ints && I32_MIN <= ints[key] <= I32_MAX then Ok(IntVal(ints[key])) else Err(LookupFailed(key))
      case I64Of =>
        if key in ints && I64_MIN <= ints[key] <= I64_MAX then Ok(IntVal(ints[key])) else Err(LookupFailed(key))
      case StringOf => if key in entries then Ok(StrVal(entries[key])) else Err(LookupFailed(key))
      case PathOf => if key in paths then Ok(PathVal(paths[key])) else Err(LookupFailed(key))
  }

  /** Every integer of the range reads back from its decimal form. */
  lemma ReadIntRoundTrip(i: int, lo: int, hi: int)
    requires lo <= i <= hi
    ensures ReadInt(Ok(IntToString(i)), lo, hi) == Ok(IntVal(i))
  {
    ParseIntegerRoundTrip(i, true, lo, hi);
  }

  /** `get_bool` of an in-memory source holding the key parses its last value: "true" and
      "false" read as themselves, and any other text is an error carrying it. */
  lemma InMemoryBoolRead(name: string, values: ValueLists, key: string)
    requires key in values && |values[key]| > 0
    ensures var text := values[key][|values[key]| - 1];
            var r := SourceRead(InMemory(name, values), BoolOf, key);
            (r == Ok(BoolVal(true)) <==> text == "true") &&
            (r == Ok(BoolVal(false)) <==> text == "false") &&
            (r.Err? ==> r.error == InvalidBool(text))
  {
  }

  /** `get_i32` and `get_i64` of an in-memory source holding the key parse its last value
      in their own range. */
  lemma InMemoryIntRead(name: string, values: ValueLists, key: string)
    requires key in values && |values[key]| > 0
    ensures var text := values[key][|values[key]| - 1];
            SourceRead(InMemory(name, values), I32Of, key) == ReadInt(Ok(text), I32_MIN, I32_MAX) &&
            SourceRead(InMemory(name, values), I64Of, key) == ReadInt(Ok(text), I64_MIN, I64_MAX)
  {
  }

  /** A git2 file answers each typed getter from git2's table for it (an integer only when
      it fits the getter's range), and otherwise fails with a lookup error naming the key. */
  lemma GitFileReads(src: Source, key: string)
    requires src.GitFile?
    ensures SourceRead(src, BoolOf, key).Ok? <==> key in src.bools
    ensures key in src.bools ==> SourceRead(src, BoolOf, key).value == BoolVal(src.bools[key])
    ensures SourceRead(src, I32Of, key).Ok? <==> key in src.ints && I32_MIN <= src.ints[key] <= I32_MAX
    ensures SourceRead(src, I64Of, key).Ok? <==> key in src.ints && I64_MIN <= src.ints[key] <= I64_MAX
    ensures SourceRead(src, I32Of, key).Ok? || SourceRead(src, I64Of, key).Ok? ==>
              key in src.ints && SourceRead(src, I64Of, key).value == IntVal(src.ints[key])
    ensures SourceRead(src, I32Of, key).Ok? ==> SourceRead(src, I32Of, key).value == IntVal(src.ints[key])
    ensures SourceRead(src, StringOf, key).Ok? <==> key in src.entries
    ensures key in src.entries ==> SourceRead(src, StringOf, key).value == StrVal(src.entries[key])
    ensures SourceRead(src, PathOf, key).Ok? <==> key in src.paths
    ensures key in src.paths ==> SourceRead(src, PathOf, key).value == PathVal(src.paths[key])
    ensures forall g :: SourceRead(src, g, key).Err? ==> SourceRead(src, g, key).error == LookupFailed(key)
  {
  }

  // ----- Config: precedence -----

  /** The index of the first source, from `from` on, whose read succeeds (|srcs| if none). */
  function FirstSuccess(srcs: seq<Source>, g: Getter, key: string, from: nat): (k: nat)
    requires from <= |srcs|
    ensures from <= k <= |srcs|
    ensures forall j :: from <= j < k ==> SourceRead(srcs[j], g, key).Err?
    ensures k < |srcs| ==> SourceRead(srcs[k], g, key).Ok?
    decreases |srcs| - from
  {
    if from == |srcs| || SourceRead(srcs[from], g, key).Ok? then from
    else FirstSuccess(srcs, g, key, from + 1)
  }

  /** Every source before the `i`th fails to read `key`. */
  predicate FailBefore(srcs: seq<Source>, g: Getter, key: string, i: nat)
    requires i <= |srcs|
  {
    forall j :: 0 <= j < i ==> SourceRead(srcs[j], g, key).Err?
  }

  lemma FailBeforeNext(srcs: seq<Source>, g: Getter, key: string, i: nat)
    requires i < |srcs|
    requires FailBefore(srcs, g, key, i) && SourceRead(srcs[i], g, key).Err?
    ensures FailBefore(srcs, g, key, i + 1)
  {
  }

  /** The first source that reads is the one before which every source fails. */
  lemma FirstSuccessAt(srcs: seq<Source>, g: Getter, key: string, i: nat)
    requires i <= |srcs|
    requires FailBefore(srcs, g, key, i)
    requires i < |srcs| ==> SourceRead(srcs[i], g, key).Ok?
    ensures FirstSuccess(srcs, g, key, 0) == i
  {
  }

  /** What `Config`'s getters answer over its sources in precedence order: the first
      successful read, or else the error of the first source. */
  function Resolve(srcs: seq<Source>, g: Getter, key: string): (r: Result<Value, ConfigError>)
    requires |srcs| > 0
    ensures r.Ok? ==> Fits(r.value, g)
    ensures r.Ok? <==> exists i :: 0 <= i < |srcs| && SourceRead(srcs[i], g, key).Ok?
    ensures forall i :: 0 <= i < |srcs| && SourceRead(srcs[i], g, key).Ok? &&
                        (forall j :: 0 <= j < i ==> SourceRead(srcs[j], g, key).Err?) ==>
                        r == SourceRead(srcs[i], g, key)
    ensures (forall j :: 0 <= j < |srcs| ==> SourceRead(srcs[j], g, key).Err?) ==>
              r == SourceRead(srcs[0], g, key)
  {
    var k := FirstSuccess(srcs, g, key, 0);
    if k < |srcs| then SourceRead(srcs[k], g, key) else SourceRead(srcs[0], g, key)
  }

  /** A source ranked above every source that answers is never overridden: sources below
      the winner do not affect the answer. */
  lemma {:induction false} LowerSourcesIrrelevant(srcs: seq<Source>, lower: seq<Source>, i: nat, g: Getter, key: string)
    requires i < |srcs| && SourceRead(srcs[i], g, key).Ok?
    ensures Resolve(srcs[..i + 1] + lower, g, key) == Resolve(srcs, g, key)
  {
    var a := srcs[..i + 1] + lower;
    var k := FirstSuccess(srcs, g, key, 0);
    assert k <= i;
    assert forall j :: 0 <= j <= i ==> a[j] == srcs[j];
    assert SourceRead(a[k], g, key).Ok?;
  }

  /** A bool read never gets past an in-memory source that lacks the key: such a source
      answers `true`, so every lower source is shadowed. */
  lemma InMemoryShadowsBools(srcs: seq<Source>, key: string)
    requires |srcs| > 0 && srcs[0].InMemory? && key !in srcs[0].values
    ensures Resolve(srcs, BoolOf, key) == Ok(BoolVal(true))
  {
  }

  /** So with the GIT_PAGER source first, every bool key other than `core.pager` resolves to
      `true`, whatever the other seven sources hold. */
  lemma {:induction false} BoolsReadTrueBelowGitPager(gitPagerVar: Option<string>, rest: seq<Source>, key: string)
    requires key != "core.pager"
    ensures Resolve([InMemory("GIT_PAGER", Collect(PagerPairs(gitPagerVar)))] + rest, BoolOf, key) == Ok(BoolVal(true))
  {
    var pairs := PagerPairs(gitPagerVar);
    var srcs := [InMemory("GIT_PAGER", Collect(pairs))] + rest;
    assert forall i :: 0 <= i < |pairs| ==> pairs[i].0 == "core.pager";
    assert key !in Collect(pairs);
    InMemoryShadowsBools(srcs, key);
  }

  // ----- FieldReader and fields -----

  /** The getter the `FieldReader` impl for a type uses; a `Parseable` type reads a string. */
  function GetterFor(ty: FieldType): (g: Getter)
    ensures g != SourceNameOf
  {
    match ty
    case BoolType => BoolOf
    case I32Type => I32Of
    case I64Type => I64Of
    case StringType => StringOf
    case PathType => PathOf
    case ColorType => StringOf
  }

  /** `FieldReader::get_field` on `Config`. A `Parseable` field parses only the string of the
      first source that has one. */
  function GetField(srcs: seq<Source>, ty: FieldType, key: string): (r: Result<Value, ConfigError>)
    requires |srcs| > 0
    ensures r.Ok? ==> HasType(r.value, ty)
    ensures var raw := Resolve(srcs, GetterFor(ty), key);
            (ty != ColorType ==> r == raw || (raw.Err? && r.Err?)) &&
            (raw.Err? ==> r == Err(FailedToRead(key, raw.error)))
  {
    var raw := Resolve(srcs, GetterFor(ty), key);
    match raw
    case Err(e) => Err(FailedToRead(key, e))
    case Ok(v) =>
      if ty == ColorType then
        (match ParseColorWhen(AsText(v))
         case Ok(c) => Ok(ColorVal(c))
         case Err(e) => Err(e))
      else Ok(v)
  }

  /** A `Parseable` field parses the winning string only: when it does not parse, the read
      fails even if a lower source holds a string that would. */
  lemma ParseableReadsWinningString(srcs: seq<Source>, key: string, i: nat)
    requires i < |srcs| && SourceRead(srcs[i], StringOf, key).Ok?
    requires forall j :: 0 <= j < i ==> SourceRead(srcs[j], StringOf, key).Err?
    ensures var text := AsText(SourceRead(srcs[i], StringOf, key).value);
            GetField(srcs, ColorType, key) ==
              match ParseColorWhen(text) case Ok(c) => Ok(ColorVal(c)) case Err(e) => Err(e)
  {
  }

  datatype RawField = RawField(name: string, ty: FieldType)

  /** `RawField` with a default: `default_value(f)` or `default()`. */
  datatype DefaultField = DefaultField(field: RawField, default: Value)

  predicate WellTyped(f: DefaultField) {
    HasType(f.default, f.field.ty)
  }

  /** `RawField::get_from`: the typed read, with its error dropped. */
  function RawGetFrom(f: RawField, srcs: seq<Source>): (r: Option<Value>)
    requires |srcs| > 0
    ensures r.Some? <==> GetField(srcs, f.ty, f.name).Ok?
    ensures r.Some? ==> r.value == GetField(srcs, f.ty, f.name).value && HasType(r.value, f.ty)
  {
    GetField(srcs, f.ty, f.name).ToOption()
  }

  /** `RawField::get_source`: the name reported by the first source that has the key. */
  function RawGetSource(f: RawField, srcs: seq<Source>): (r: Option<string>)
    requires |srcs| > 0
    ensures r.Some? <==> exists i :: 0 <= i < |srcs| && SourceRead(srcs[i], SourceNameOf, f.name).Ok?
  {
    match Resolve(srcs, SourceNameOf, f.name)
    case Ok(v) => Some(AsText(v))
    case Err(_) => None
  }

  /** `DefaultField::get_from`: the resolved value, or else the default. */
  function DefaultGetFrom(f: DefaultField, srcs: seq<Source>): Value
    requires |srcs| > 0
  {
    RawGetFrom(f.field, srcs).GetOr(f.default)
  }

  /** `DefaultField::get_source`: the answering source's name, or else "default". */
  function DefaultGetSource(f: DefaultField, srcs: seq<Source>): string
    requires |srcs| > 0
  {
    RawGetSource(f.field, srcs).GetOr("default")
  }

  /** A default field answers the field's read when it succeeds and its default otherwise;
      a well-typed field's answer has the field's type either way. */
  lemma DefaultGetFromFallsBack(f: DefaultField, srcs: seq<Source>)
    requires |srcs| > 0
    ensures GetField(srcs, f.field.ty, f.field.name).Ok? ==>
              DefaultGetFrom(f, srcs) == GetField(srcs, f.field.ty, f.field.name).value
    ensures GetField(srcs, f.field.ty, f.field.name).Err? ==> DefaultGetFrom(f, srcs) == f.default
    ensures WellTyped(f) ==> HasType(DefaultGetFrom(f, srcs), f.field.ty)
  {
  }

  /** A default field reports "default" when no source has the key, and otherwise the name
      the first source that has it reports. */
  lemma DefaultGetSourceNames(f: DefaultField, srcs: seq<Source>)
    requires |srcs| > 0
    ensures (forall j :: 0 <= j < |srcs| ==> SourceRead(srcs[j], SourceNameOf, f.field.name).Err?) ==>
              DefaultGetSource(f, srcs) == "default"
    ensures forall i :: 0 <= i < |srcs| && SourceRead(srcs[i], SourceNameOf, f.field.name).Ok? &&
                        (forall j :: 0 <= j < i ==> SourceRead(srcs[j], SourceNameOf, f.field.name).Err?) ==>
                        DefaultGetSource(f, srcs) == AsText(SourceRead(srcs[i], SourceNameOf, f.field.name).value)
  {
  }

  /** `COLOR_UI`: `color.ui`, defaulting to `ColorWhen::default()`. */
  const COLOR_UI := DefaultField(RawField("color.ui", ColorType), ColorVal(Auto))
  /** `PAGER`: `core.pager`, defaulting to "less". */
  const PAGER := DefaultField(RawField("core.pager", StringType), StrVal("less"))

  /** `core.pager` falls back to "less" when no source has a string for it. */
  lemma PagerDefaultsToLess(srcs: seq<Source>)
    requires |srcs| > 0
    requires forall j :: 0 <= j < |srcs| ==> SourceRead(srcs[j], StringOf, "core.pager").Err?
    ensures DefaultGetFrom(PAGER, srcs) == StrVal("less")
  {
  }

  /** An unsupported `color.ui` in the winning source gives `Auto`; lower sources are not
      consulted even when they hold a valid value. */
  lemma {:induction false} UnsupportedColorFallsToAuto(srcs: seq<Source>, i: nat)
    requires i < |srcs| && SourceRead(srcs[i], StringOf, "color.ui").Ok?
    requires forall j :: 0 <= j < i ==> SourceRead(srcs[j], StringOf, "color.ui").Err?
    requires ParseColorWhen(AsText(SourceRead(srcs[i], StringOf, "color.ui").value)).Err?
    ensures DefaultGetFrom(COLOR_UI, srcs) == ColorVal(Auto)
  {
    ParseableReadsWinningString(srcs, "color.ui", i);
  }

  /** An unparsable integer, unlike a `Parseable` value, falls through to the next source:
      an in-memory source whose last value is not an `i32` gives way to the source below. */
  lemma IntFallsThrough(srcs: seq<Source>, key: string)
    requires |srcs| >= 2 && srcs[0].InMemory? && key in srcs[0].values && |srcs[0].values[key]| > 0
    requires ParseInteger(srcs[0].values[key][|srcs[0].values[key]| - 1], true, I32_MIN, I32_MAX).None?
    requires SourceRead(srcs[1], I32Of, key).Ok?
    ensures Resolve(srcs, I32Of, key) == SourceRead(srcs[1], I32Of, key)
  {
    assert SourceRead(srcs[0], I32Of, key).Err?;
  }

  /** For instance `dive.width = wide` from `-c` gives way to `72` below it. */
  lemma IntFallsThroughExample()
    ensures var srcs := [InMemory("git-cli", map["dive.width" := ["wide"]]),
                         InMemory("PAGER", map["dive.width" := ["72"]])];
            Resolve(srcs, I32Of, "dive.width") == Ok(IntVal(72))
  {
    var srcs := [InMemory("git-cli", map["dive.width" := ["wide"]]),
                 InMemory("PAGER", map["dive.width" := ["72"]])];
    assert ParseInteger("wide", true, I32_MIN, I32_MAX).None? by {
      assert !IsDigit("wide"[0]);
    }
    assert "72" == NatToString(72);
    ReadIntRoundTrip(72, I32_MIN, I32_MAX);
    assert SourceRead(srcs[1], I32Of, "dive.width") == Ok(IntVal(72));
    IntFallsThrough(srcs, "dive.width");
  }

  // ----- dump -----

  datatype DumpError = MissingSection(field: string)  // the panic "field `..` is missing a section"

  /** The `Display` of a field's value. (A `PathBuf` has none; no dumped field is a path.) */
  function Display(v: Value): string {
    match v
    case BoolVal(b) => BoolToString(b)
    case IntVal(i) => IntToString(i)
    case StrVal(s) => s
    case PathVal(p) => p
    case ColorVal(c) => ColorAsStr(c)
  }

  /** One line of `dump`'s output: the field's name, its shown value and its source. */
  datatype DumpRow = DumpRow(name: string, value: string, source: string)

  /** What `dump` looks up for each field before formatting it. */
  function DumpRows(fields: seq<DefaultField>, srcs: seq<Source>): (rows: seq<DumpRow>)
    requires |srcs| > 0
    ensures |rows| == |fields|
    ensures forall i :: 0 <= i < |fields| ==> rows[i].name == fields[i].field.name
    ensures forall i :: 0 <= i < |fields| ==>
              rows[i].value == Display(DefaultGetFrom(fields[i], srcs)) &&
              rows[i].source == DefaultGetSource(fields[i], srcs)
  {
    seq(|fields|, i requires 0 <= i < |fields| =>
      DumpRow(fields[i].field.name, Display(DefaultGetFrom(fields[i], srcs)), DefaultGetSource(fields[i], srcs)))
  }

  /** The header `dump` writes before a field of `section` when the previous one was `prior`. */
  function Header(section: string, prior: string): string {
    if section != prior then "[" + section + "]\n" else ""
  }

  /** The entry line for a row whose name after the section is `key`. */
  function EntryLine(key: string, row: DumpRow): string {
    "\t" + key + " = " + row.value + "  # " + row.source + "\n"
  }

  /** The text `dump` has produced once it has written `written` and goes on with `rows`,
      the previous section being `prior`. */
  function DumpFrom(rows: seq<DumpRow>, prior: string, written: string): Result<string, DumpError>
    decreases |rows|
  {
    if |rows| == 0 then Ok(written)
    else
      match SplitOnce(rows[0].name, '.')
      case None => Err(MissingSection(rows[0].name))
      case Some((section, key)) =>
        DumpFrom(rows[1..], section, written + Header(section, prior) + EntryLine(key, rows[0]))
  }

  /** The text of `dump` over `fields`. */
  function DumpText(fields: seq<DefaultField>, srcs: seq<Source>): Result<string, DumpError>
    requires |srcs| > 0
  {
    DumpFrom(DumpRows(fields, srcs), "", "")
  }

  /** The index of the first row whose name has no '.', or the number of rows if none. */
  function FirstUnsectioned(rows: seq<DumpRow>): (k: nat)
    ensures k <= |rows|
    ensures forall j :: 0 <= j < k ==> '.' in rows[j].name
    ensures k < |rows| ==> '.' !in rows[k].name
    decreases |rows|
  {
    if |rows| == 0 || '.' !in rows[0].name then 0
    else
      var k := FirstUnsectioned(rows[1..]);
      assert forall j :: 1 <= j < k + 1 ==> rows[j] == rows[1..][j - 1];
      k + 1
  }

  /** `dump` fails exactly when some field name has no '.', and then on the first such name. */
  lemma {:induction false} DumpFailsOnFirstUnsectioned(rows: seq<DumpRow>, prior: string, written: string)
    ensures DumpFrom(rows, prior, written).Err? <==> FirstUnsectioned(rows) < |rows|
    ensures DumpFrom(rows, prior, written).Err? ==>
              DumpFrom(rows, prior, written).error == MissingSection(rows[FirstUnsectioned(rows)].name)
    decreases |rows|
  {
    if |rows| > 0 && '.' in rows[0].name {
      var p := SplitOnce(rows[0].name, '.').value;
      var w := written + Header(p.0, prior) + EntryLine(p.1, rows[0]);
      assert DumpFrom(rows, prior, written) == DumpFrom(rows[1..], p.0, w);
      DumpFailsOnFirstUnsectioned(rows[1..], p.0, w);
      var k := FirstUnsectioned(rows[1..]);
      assert FirstUnsectioned(rows) == k + 1;
      if k < |rows[1..]| {
        assert rows[1..][k] == rows[k + 1];
      }
    }
  }

  /** The section of a dotted name and the rest. */
  function SectionOf(name: string): string {
    match SplitOnce(name, '.')
    case Some((section, _)) => section
    case None => ""
  }

  function KeyOf(name: string): string {
    match SplitOnce(name, '.')
    case Some((_, key)) => key
    case None => name
  }

  /** The entry lines of `rows`, in order, without any header. */
  function Entries(rows: seq<DumpRow>): string
    decreases |rows|
  {
    if |rows| == 0 then ""
    else EntryLine(KeyOf(rows[0].name), rows[0]) + Entries(rows[1..])
  }

  /** Rows of one section get a single `[section]` header, written only when the section
      differs from the previous one, followed by one entry per row in the order given. */
  lemma {:induction false} DumpOneSection(rows: seq<DumpRow>, section: string, prior: string, written: string)
    requires forall i :: 0 <= i < |rows| ==> '.' in rows[i].name && SectionOf(rows[i].name) == section
    ensures DumpFrom(rows, prior, written) ==
              Ok(written + (if |rows| > 0 then Header(section, prior) else "") + Entries(rows))
    decreases |rows|
  {
    if |rows| == 0 {
      assert written + "" + "" == written;
    } else {
      assert forall i :: 0 <= i < |rows| - 1 ==> rows[1..][i] == rows[i + 1];
      var e := EntryLine(KeyOf(rows[0].name), rows[0]);
      var h := Header(section, prior);
      var next := written + h + e;
      DumpOneSection(rows[1..], section, section, next);
      var rest := Entries(rows[1..]);
      ConcatAssoc(written + h, e, rest);
      var h2 := if |rows[1..]| > 0 then Header(section, section) else "";
      assert h2 == "";
      assert next + h2 == next;
    }
  }

  lemma SplitCorePager()
    ensures SplitOnce("core.pager", '.') == Some(("core", "pager"))
  {
    assert FirstIndexOf("core.pager", '.') == Some(4);
    assert "core.pager"[..4] == "core";
    assert "core.pager"[5..] == "pager";
  }

  /** `dump` of `core.pager` when no source has it: `[core]`, then its default and "default". */
  lemma DumpPagerDefault(srcs: seq<Source>)
    requires |srcs| > 0
    requires forall j :: 0 <= j < |srcs| ==> SourceRead(srcs[j], StringOf, "core.pager").Err?
    requires forall j :: 0 <= j < |srcs| ==> SourceRead(srcs[j], SourceNameOf, "core.pager").Err?
    ensures DumpText([PAGER], srcs) == Ok("[core]\n\tpager = less  # default\n")
  {
    PagerDefaultsToLess(srcs);
    DefaultGetSourceNames(PAGER, srcs);
    var rows := DumpRows([PAGER], srcs);
    assert rows == [DumpRow("core.pager", "less", "default")];
    SplitCorePager();
    var w := "" + Header("core", "") + EntryLine("pager", rows[0]);
    assert rows[1..] == [];
    assert DumpFrom(rows[1..], "core", w) == Ok(w);
    PagerDumpLine();
  }

  lemma PagerDumpLine()
    ensures "" + Header("core", "") + EntryLine("pager", DumpRow("core.pager", "less", "default"))
            == "[core]\n\tpager = less  # default\n"
  {
    PagerEntryLine();
    CoreHeader();
  }

  lemma CoreHeader()
    ensures Header("core", "") == "[core]\n"
  {
  }

  lemma PagerEntryLine()
    ensures EntryLine("pager", DumpRow("core.pager", "less", "default")) == "\tpager = less  # default\n"
  {
  }

  // ----- the Config object -----

  /** `git2_config::Config`: the eight sources; only `local` changes after construction. */
  class Config {
    var gitPager: Source
    var cli: Source
    var env: Source
    var local: Option<FileSource>
    var global: Option<FileSource>
    var xdg: Option<FileSource>
    var system: Option<FileSource>
    var pager: Source

    /** `Config::system()`, with the environment and the opened files as inputs:
        `gitPagerVar`/`pagerVar` are `$GIT_PAGER`/`$PAGER` when set and valid UTF-8,
        `cliParams` the `-c` parameters and `envPairs` the `GIT_CONFIG_*` pairs. */
    constructor System(gitPagerVar: Option<string>, cliParams: seq<(string, Option<string>)>,
                       envPairs: seq<(string, string)>, global: Option<FileSource>, xdg: Option<FileSource>,
                       system: Option<FileSource>, pagerVar: Option<string>)
      ensures this.gitPager == InMemory("GIT_PAGER", Collect(PagerPairs(gitPagerVar)))
      ensures this.cli == InMemory("git-cli", Collect(CliPairs(cliParams)))
      ensures this.env == InMemory("git-config-env", Collect(envPairs))
      ensures this.local == None
      ensures this.global == global && this.xdg == xdg && this.system == system
      ensures this.pager == InMemory("PAGER", Collect(PagerPairs(pagerVar)))
    {
      var p := FromEnv("PAGER", PagerPairs(pagerVar));
      var e := FromEnv("git-config-env", envPairs);
      var c := FromEnv("git-cli", CliPairs(cliParams));
      var gp := FromEnv("GIT_PAGER", PagerPairs(gitPagerVar));
      this.pager := p;
      this.system := system;
      this.xdg := xdg;
      this.global := global;
      this.local := None;
      this.env := e;
      this.cli := c;
      this.gitPager := gp;
    }

    /** The `ConfigSource` name of the resolver. */
    function Name(): string {
      "git"
    }

    /** `Config::sources()`: precedence order, absent files skipped; the four in-memory
        sources are always there. */
    function Sources(): (s: seq<Source>)
      reads this
      ensures |s| >= 4
      ensures s[0] == gitPager && s[1] == cli && s[2] == env && s[|s| - 1] == pager
      ensures |s| == 4 + Present(local) + Present(global) + Present(xdg) + Present(system)
    {
      [gitPager, cli, env] + OptionSeq(local) + OptionSeq(global) + OptionSeq(xdg)
        + OptionSeq(system) + [pager]
    }

    /** The files come between git-config-env and PAGER in the order local, global, XDG,
        system, each present one taking the next position. */
    lemma SourcesInOrder()
      ensures var s := Sources();
              (local.Some? ==> s[3] == local.value) &&
              (global.Some? ==> s[3 + Present(local)] == global.value) &&
              (xdg.Some? ==> s[3 + Present(local) + Present(global)] == xdg.value) &&
              (system.Some? ==> s[3 + Present(local) + Present(global) + Present(xdg)] == system.value)
      ensures local.Some? && global.Some? && xdg.Some? && system.Some? ==>
                Sources() == [gitPager, cli, env, local.value, global.value, xdg.value, system.value, pager]
    {
      var s := Sources();
      var a, b, c, d := OptionSeq(local), OptionSeq(global), OptionSeq(xdg), OptionSeq(system);
      assert s == [gitPager, cli, env] + a + b + c + d + [pager];
      var x := [gitPager, cli, env] + a;
      var y := x + b;
      var z := y + c;
      assert s == z + d + [pager];
      assert |x| == 3 + Present(local) && |y| == |x| + Present(global) && |z| == |y| + Present(xdg);
      if local.Some? {
        assert s[3] == x[3] == a[0];
      }
      if global.Some? {
        assert s[|x|] == y[|x|] == b[0];
      }
      if xdg.Some? {
        assert s[|y|] == z[|y|] == c[0];
      }
      if system.Some? {
        assert s[|z|] == d[0];
      }
    }

    /** `Config::add_repo`: the repository's config replaces the local source. */
    method AddRepo(repoLocal: Option<FileSource>)
      modifies this`local
      ensures local == repoLocal
    {
      local := repoLocal;
    }

    /** The `ConfigSource` getters of `Config`: visit the sources in order and return the
        first success, else the first source's error. */
    method Read(g: Getter, key: string) returns (r: Result<Value, ConfigError>)
      ensures r == Resolve(Sources(), g, key)
    {
      var srcs := Sources();
      for i := 0 to |srcs|
        invariant FailBefore(srcs, g, key, i)
      {
        var v := SourceRead(srcs[i], g, key);
        if v.Ok? {
          FirstSuccessAt(srcs, g, key, i);
          return v;
        }
        FailBeforeNext(srcs, g, key, i);
      }
      FirstSuccessAt(srcs, g, key, |srcs|);
      return SourceRead(srcs[0], g, key);
    }

    /** `Config::dump`: a `[section]` header whenever the section changes, then
        `\tname = value  # source` per field. */
    method Dump(fields: seq<DefaultField>) returns (r: Result<string, DumpError>)
      ensures r == DumpText(fields, Sources())
    {
      var srcs := Sources();
      ghost var rows := DumpRows(fields, srcs);
      var output := "";
      var prior := "";
      for i := 0 to |fields|
        invariant DumpText(fields, srcs) == DumpFrom(rows[i..], prior, output)
      {
        var f := fields[i];
        var split := SplitOnce(f.field.name, '.');
        if split.None? {
          return Err(MissingSection(f.field.name));
        }
        var (section, key) := split.value;
        var row := DumpRow(f.field.name, Display(DefaultGetFrom(f, srcs)), DefaultGetSource(f, srcs));
        assert rows[i..][0] == row && rows[i..][1..] == rows[i + 1..];
        output := output + Header(section, prior) + EntryLine(key, row);
        prior := section;
      }
      return Ok(output);
    }
  }

  function Present(o: Option<Source>): nat {
    if o.Some? then 1 else 0
  }

  function OptionSeq(o: Option<Source>): (s: seq<Source>)
    ensures |s| == Present(o)
  {
    match o
    case Some(v) => [v]
    case None => []
  }
}
