/**
 * The single-source configuration of src/config.rs: a `Config` boxing the
 * repository's git2 configuration, typed field readers that add the field name
 * to an error, `RawField` (an optional value) and `FallbackField` (a value
 * computed from the whole configuration when the field cannot be read).
 */
module LegacyConfig {
  import opened Base
  import G = Git2Config

  /** `config::Config`: the repository's git2 configuration, given as git2's answers. */
  datatype Config = Config(repo: G.FileSource)

  /** The `ConfigSource` name of `Config` and of `git2::Config` in this file. */
  const NAME := "git"

  /** The value types this file has `FieldReader` impls for (no `Parseable` type). */
  predicate Readable(ty: G.FieldType) {
    ty != G.ColorType
  }

  /** A getter of `config::ConfigSource` on `Config`: forwarded to the repository's
      configuration. */
  function Read(c: Config, g: G.Getter, key: string): (r: Result<G.Value, G.ConfigError>)
    requires g != G.SourceNameOf
    ensures r.Ok? ==> G.Fits(r.value, g)
  {
    G.SourceRead(c.repo, g, key)
  }

  /** `FieldReader::get_field`: the typed read, its error wrapped with the field name. */
  function FieldRead(c: Config, ty: G.FieldType, key: string): (r: Result<G.Value, G.ConfigError>)
    requires Readable(ty)
    ensures r.Ok? ==> G.HasType(r.value, ty)
    ensures r.Ok? <==> G.SourceRead(c.repo, G.GetterFor(ty), key).Ok?
    ensures r.Ok? ==> r.value == G.SourceRead(c.repo, G.GetterFor(ty), key).value
    ensures r.Err? ==> r.error == G.FailedToRead(key, G.SourceRead(c.repo, G.GetterFor(ty), key).error)
  {
    match Read(c, G.GetterFor(ty), key)
    case Ok(v) => Ok(v)
    case Err(e) => Err(G.FailedToRead(key, e))
  }

  /** `RawField::get_from`: the typed read without its error. */
  function RawGetFrom(f: G.RawField, c: Config): (r: Option<G.Value>)
    requires Readable(f.ty)
    ensures r.Some? <==> G.SourceRead(c.repo, G.GetterFor(f.ty), f.name).Ok?
    ensures r.Some? ==> r.value == G.SourceRead(c.repo, G.GetterFor(f.ty), f.name).value
    ensures r.Some? ==> G.HasType(r.value, f.ty)
  {
    FieldRead(c, f.ty, f.name).ToOption()
  }

  /** `FallbackField`: a raw field and the function computing its value when it is unset. */
  datatype FallbackField = FallbackField(field: G.RawField, fallback: Config -> G.Value)

  /** `FallbackField::get_from`: the raw field's value, else the fallback applied to the
      whole configuration. */
  function FallbackGetFrom(f: FallbackField, c: Config): G.Value
    requires Readable(f.field.ty)
  {
    RawGetFrom(f.field, c).GetOr(f.fallback(c))
  }

  /** A fallback field answers what the configuration holds when it can be read, and the
      fallback's answer, computed from the same configuration, only when it cannot. */
  lemma FallbackOnlyWhenUnreadable(f: FallbackField, c: Config)
    requires Readable(f.field.ty)
    ensures G.SourceRead(c.repo, G.GetterFor(f.field.ty), f.field.name).Ok? ==>
              FallbackGetFrom(f, c) == G.SourceRead(c.repo, G.GetterFor(f.field.ty), f.field.name).value
    ensures G.SourceRead(c.repo, G.GetterFor(f.field.ty), f.field.name).Err? ==>
              FallbackGetFrom(f, c) == f.fallback(c)
  {
  }

  /** A fallback may read another field of the same configuration: an unset field then
      takes the other field's value, or the other field's default when it is unset too.
      (The fallback's `if Readable(other.ty)` never takes its `else` branch here; the test
      is there because `RawGetFrom` asks every caller, this function value too, for a
      readable type.) */
  lemma FallbackToAnotherField(c: Config, f: G.RawField, other: G.RawField, last: G.Value)
    requires Readable(f.ty) && Readable(other.ty)
    requires G.SourceRead(c.repo, G.GetterFor(f.ty), f.name).Err?
    ensures var chained := FallbackField(f, (c': Config) =>
                              if Readable(other.ty) then RawGetFrom(other, c').GetOr(last) else last);
            FallbackGetFrom(chained, c) ==
              if G.SourceRead(c.repo, G.GetterFor(other.ty), other.name).Ok?
              then G.SourceRead(c.repo, G.GetterFor(other.ty), other.name).value
              else last
  {
  }

  /** A git2 lookup that has no entry for the key fails with that key, wrapped with the
      field name. */
  lemma MissingEntryNamesField(entries: map<string, string>, bools: map<string, bool>,
                               ints: map<string, int>, paths: map<string, string>, key: string)
    requires key !in entries
    ensures FieldRead(Config(G.GitFile(NAME, entries, bools, ints, paths)), G.StringType, key)
            == Err(G.FailedToRead(key, G.LookupFailed(key)))
  {
  }
}
