/** The caller's options record and the shallow merges applied to it (index.js:11-14, 69, 115-117). */
module Config {
  import opened Wrappers

  /** The `file` option: `false` disables the seed file; otherwise a path and
      optional contents (`contents` absent is `undefined` in the source). */
  datatype SeedFile = Disabled | Seed(path: string, contents: Option<string>)

  /** The `files` option: a single path or an array of paths to stage. */
  datatype FilesSpec = Single(name: string) | List(names: seq<string>)

  /** A value of the pass-through process-execution settings. */
  datatype Setting = Text(text: string) | Number(n: int) | Flag(on: bool)

  /** Every option the library reads. Each field is `None` when the property is
      absent; the boolean flags are compared with `=== true` / `!== false` by the
      source, so `None` also covers a value of any other type. */
  datatype Options = Options(
    cwd: Option<string>,
    message: Option<string>,
    file: Option<SeedFile>,
    forceFile: Option<bool>,
    commit: Option<bool>,
    skipCommit: Option<bool>,
    remote: Option<string>,
    push: Option<bool>,
    files: Option<FilesSpec>,
    exec: Option<map<string, Setting>>)

  /** The empty object literal `{}`. */
  const NoOptions: Options := Options(None, None, None, None, None, None, None, None, None, None)

  const DefaultMessage: string := "first commit"
  const DefaultFile: SeedFile := Seed(".gitkeep", Some(""))

  /** The module-level `defaults` object. */
  const Defaults: Options := NoOptions.(message := Some(DefaultMessage), file := Some(DefaultFile))

  /** One property of `Object.assign`: the source's value when it has one. */
  function Pick<T>(target: Option<T>, source: Option<T>): (r: Option<T>)
    ensures source.Some? ==> r == source
    ensures source.None? ==> r == target
  {
    if source.Some? then source else target
  }

  /** `Object.assign(target, source)`: a shallow, property-by-property copy in
      which every property the source sets replaces the target's whole value. */
  function Assign(target: Options, source: Options): (r: Options)
  {
    Options(
      Pick(target.cwd, source.cwd),
      Pick(target.message, source.message),
      Pick(target.file, source.file),
      Pick(target.forceFile, source.forceFile),
      Pick(target.commit, source.commit),
      Pick(target.skipCommit, source.skipCommit),
      Pick(target.remote, source.remote),
      Pick(target.push, source.push),
      Pick(target.files, source.files),
      Pick(target.exec, source.exec))
  }

  /** Assigning onto or from the empty object changes nothing, and chained
      assigns associate, so `Object.assign({}, a, b)` is well defined. */
  lemma AssignLaws(a: Options, b: Options, c: Options)
    ensures Assign(NoOptions, a) == a
    ensures Assign(a, NoOptions) == a
    ensures Assign(a, a) == a
    ensures Assign(Assign(a, b), c) == Assign(a, Assign(b, c))
  {
  }

  /** `Object.assign({}, defaults, options)` (index.js:69): the message and the
      seed file always end up present; a supplied `file` replaces the default
      object wholesale (the merge is shallow), and every other option is the caller's. */
  function Merge(o: Options): (opts: Options)
    ensures opts.message.Some? && opts.file.Some?
    ensures opts.message == (if o.message.Some? then o.message else Some(DefaultMessage))
    ensures opts.file == (if o.file.Some? then o.file else Some(DefaultFile))
    ensures opts.(message := o.message, file := o.file) == o
  {
    Assign(Assign(NoOptions, Defaults), o)
  }

  /** `arrayify(val)`: absent gives no names, one name gives a singleton, an array is kept. */
  function Arrayify(v: Option<FilesSpec>): (names: seq<string>)
  {
    match v
    case None => []
    case Some(Single(name)) => [name]
    case Some(List(names)) => names
  }

  /** What `arrayify` gives for each shape of its argument: nothing for a missing
      value, a singleton for a lone name, any array unchanged; so a lone name
      means the same as a one-element array, and arrayifying twice is arrayifying once. */
  lemma ArrayifyNormalises(v: Option<FilesSpec>, name: string, names: seq<string>)
    ensures Arrayify(None) == []
    ensures Arrayify(Some(Single(name))) == [name] == Arrayify(Some(List([name])))
    ensures Arrayify(Some(List(names))) == names
    ensures Arrayify(Some(List(Arrayify(v)))) == Arrayify(v)
  {
  }
}
