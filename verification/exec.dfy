/** The working-directory and process-settings merge done by both entry points
    (index.js:29-30 and, identically, index.js:54-55). */
module Exec {
  import opened Wrappers
  import opened Config

  /** What the entry points derive before running anything: the merged options
      handed to the command builder and the settings handed to the process runner. */
  datatype Prepared = Prepared(opts: Options, settings: map<string, Setting>)

  /** The caller's options laid over the positional directory `cwd`, and the
      caller's `exec` settings with `cwd` forced to the resulting directory. */
  function Prepare(cwd: string, options: Options): (p: Prepared)
    // an option-supplied `cwd` overrides the positional one; nothing else is touched
    ensures p.opts.cwd == Some(options.cwd.GetOr(cwd))
    ensures p.opts.(cwd := options.cwd) == options
    // the process always runs in that directory, whatever `exec.cwd` said
    ensures "cwd" in p.settings && p.settings["cwd"] == Text(options.cwd.GetOr(cwd))
    // every other key of `exec` passes through unchanged, and no key is invented
    ensures options.exec.Some? ==>
      forall k :: k in options.exec.value && k != "cwd" ==> k in p.settings && p.settings[k] == options.exec.value[k]
    ensures forall k :: k in p.settings && k != "cwd" ==> options.exec.Some? && k in options.exec.value
    ensures options.exec.None? ==> p.settings.Keys == {"cwd"}
  {
    var opts := Assign(NoOptions.(cwd := Some(cwd)), options);
    var fromExec: map<string, Setting> := opts.exec.GetOr(map[]);
    var settings := map[] + fromExec + map["cwd" := Text(opts.cwd.value)];
    Prepared(opts, settings)
  }

  /** Preparing is stable: feeding the merged options back in (with any
      positional directory) reproduces the same options and the same settings. */
  lemma PrepareIdempotent(cwd: string, other: string, options: Options)
    ensures Prepare(other, Prepare(cwd, options).opts) == Prepare(cwd, options)
  {
  }
}
