/**
 * `LazyThemeSet` of src/assets/lazy_theme_set.rs: themes kept serialized by name and
 * deserialized on first use, the first success being cached; the theme names in order;
 * and the conversion into a set of deserialized themes.
 *
 * Deserialization (bincode over zlib) is the partial function `decode`, fixed when the
 * set is built; `T` is the theme type. The ghost `decoded` records, in order, the names
 * `get` deserialized, to state when deserialization happens.
 */
module LazyThemes {
  import opened Base
  import opened Text

  type Byte = b: int | 0 <= b < 256

  /** The error of `asset_from_contents` for a lazy-loaded theme. */
  datatype DecodeError = CouldNotParse(description: string)

  /** `names` is in strictly ascending order. */
  predicate Ascending(names: seq<string>) {
    forall i, j :: 0 <= i < j < |names| ==> StrLess(names[i], names[j])
  }

  /** A non-empty finite set of strings has a least element. */
  lemma {:induction false} LeastExists(s: set<string>)
    requires s != {}
    ensures exists m :: m in s && forall x :: x in s && x != m ==> StrLess(m, x)
    decreases |s|
  {
    var y :| y in s;
    if s - {y} == {} {
      assert s == {y};
    } else {
      LeastExists(s - {y});
      var m :| m in s - {y} && forall x :: x in s - {y} && x != m ==> StrLess(m, x);
      if StrLess(m, y) {
        forall x | x in s && x != m ensures StrLess(m, x) {
          if x == y {
          }
        }
      } else {
        StrLessTotal(m, y);
        forall x | x in s && x != y ensures StrLess(y, x) {
          if x != m {
            StrLessTransitive(y, m, x);
          }
        }
      }
    }
  }

  /** `names` lists, in ascending order, the members of `keys` outside `rest`, and each of
      them is below every member of `rest`. */
  predicate Listed(names: seq<string>, rest: set<string>, keys: set<string>) {
    && rest <= keys
    && Ascending(names)
    && (forall n :: n in keys ==> (n in names <==> n !in rest))
    && (forall n :: n in names ==> n in keys)
    && (forall i, x :: 0 <= i < |names| && x in rest ==> StrLess(names[i], x))
    && |names| + |rest| == |keys|
  }

  /** Moving the least remaining name to the end of the list keeps it a listing. */
  lemma ListedStep(names: seq<string>, rest: set<string>, keys: set<string>, m: string)
    requires Listed(names, rest, keys)
    requires m in rest && forall x :: x in rest && x != m ==> StrLess(m, x)
    ensures Listed(names + [m], rest - {m}, keys)
  {
    var names' := names + [m];
    assert forall i :: 0 <= i < |names| ==> names'[i] == names[i];
  }

  class LazyThemeSet<T> {
    /** `themes`: the serialized theme of each name (a `BTreeMap`). */
    const serialized: map<string, seq<Byte>>
    const decode: seq<Byte> -> Option<T>
    /** The `OnceCell` of each name that holds a deserialized theme. */
    var cache: map<string, T>
    ghost var decoded: seq<string>

    /** Every cached theme belongs to a name of the set and is what its bytes decode to. */
    ghost predicate Valid()
      reads this
    {
      forall name :: name in cache ==> name in serialized && decode(serialized[name]) == Some(cache[name])
    }

    constructor (serialized: map<string, seq<Byte>>, decode: seq<Byte> -> Option<T>)
      ensures this.serialized == serialized && this.decode == decode
      ensures cache == map[] && decoded == []
      ensures Valid()
    {
      this.serialized := serialized;
      this.decode := decode;
      cache := map[];
      decoded := [];
    }

    /** `LazyThemeSet::get`: the cached theme, else the theme deserialized now and cached
        when that succeeds. An unknown name deserializes nothing. */
    method Get(name: string) returns (r: Option<T>)
      requires Valid()
      modifies this`cache, this`decoded
      ensures Valid()
      ensures r == if name in serialized then decode(serialized[name]) else None
      ensures name !in serialized ==> cache == old(cache) && decoded == old(decoded)
      ensures name in old(cache) ==> r == Some(old(cache)[name]) && cache == old(cache) && decoded == old(decoded)
      ensures name in serialized && name !in old(cache) ==>
                decoded == old(decoded) + [name] &&
                cache == if r.Some? then old(cache)[name := r.value] else old(cache)
    {
      if name !in serialized {
        return None;
      }
      if name in cache {
        return Some(cache[name]);
      }
      decoded := decoded + [name];
      r := decode(serialized[name]);
      if r.Some? {
        cache := cache[name := r.value];
      }
    }

    /** `LazyThemeSet::themes`: the names, in `BTreeMap` order. */
    method Themes() returns (names: seq<string>)
      ensures Ascending(names)
      ensures forall n :: n in names <==> n in serialized
      ensures |names| == |serialized|
    {
      names := [];
      var rest := serialized.Keys;
      while rest != {}
        invariant Listed(names, rest, serialized.Keys)
        decreases |rest|
      {
        LeastExists(rest);
        var m :| m in rest && forall x :: x in rest && x != m ==> StrLess(m, x);
        ListedStep(names, rest, serialized.Keys, m);
        names := names + [m];
        rest := rest - {m};
      }
    }

    /** `TryFrom<LazyThemeSet> for ThemeSet`: deserializes every theme again, in name order,
        and stops at the first that fails. */
    method IntoThemeSet() returns (r: Result<map<string, T>, DecodeError>)
      ensures r.Ok? <==> forall n :: n in serialized ==> decode(serialized[n]).Some?
      ensures r.Ok? ==> r.value.Keys == serialized.Keys &&
                        forall n :: n in serialized ==> decode(serialized[n]) == Some(r.value[n])
      ensures r.Err? ==> r.error == CouldNotParse("lazy-loaded theme")
    {
      var names := Themes();
      var themes: map<string, T> := map[];
      for i := 0 to |names|
        invariant forall k :: 0 <= k < i ==> names[k] in themes
        invariant forall n :: n in themes ==> n in serialized && decode(serialized[n]) == Some(themes[n])
      {
        var theme := decode(serialized[names[i]]);
        if theme.None? {
          return Err(CouldNotParse("lazy-loaded theme"));
        }
        themes := themes[names[i] := theme.value];
      }
      assert forall n :: n in serialized ==> n in themes by {
        forall n | n in serialized ensures n in themes {
          var k :| 0 <= k < |names| && names[k] == n;
        }
      }
      return Ok(themes);
    }
  }

  /** Two `get`s of the same name answer the same. A success is deserialized once and then
      answered from the cache; a failure is not cached, so the second `get` deserializes again. */
  method GetTwice<T>(themes: LazyThemeSet<T>, name: string) returns (first: Option<T>, second: Option<T>)
    requires themes.Valid()
    modifies themes
    ensures first == second
    ensures name !in themes.serialized || name in old(themes.cache) ==> themes.decoded == old(themes.decoded)
    ensures name in themes.serialized && name !in old(themes.cache) ==>
              themes.decoded == old(themes.decoded) + (if first.Some? then [name] else [name, name])
  {
    first := themes.Get(name);
    second := themes.Get(name);
  }
}
