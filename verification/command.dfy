/** The command builder `createArgs` (index.js:68-105): a fixed sequence of git
    and shell commands, each included or not according to the merged options,
    joined with `" && "`. The directory-emptiness test and the git-URL test are
    inputs: `dirEmpty` is the emptiness of `opts.cwd` with junk entries ignored
    (see module Junk), `isGitUrl` the foreign URL validator. */
module Command {
  import opened Wrappers
  import opened Strings
  import opened Config

  const Separator: string := " && "
  const FallbackMessage: string := "First commit"
  const PushCommand: string := "git push --force origin master:master"

  /** One shell command of the composed sequence. */
  datatype Step =
    | Init
    | Touch(path: string)
    | Echo(contents: string, target: string)
    | Add(files: string)
    | Commit(message: string)
    | AddRemote(url: string)
    | Push

  /** The position of each kind of step in the fixed order of the source. */
  const InitRank: nat := 0
  const TouchRank: nat := 1
  const EchoRank: nat := 2
  const AddRank: nat := 3
  const CommitRank: nat := 4
  const RemoteRank: nat := 5
  const PushRank: nat := 6

  function Rank(s: Step): (k: nat)
    ensures k <= PushRank
  {
    match s
    case Init => InitRank
    case Touch(_) => TouchRank
    case Echo(_, _) => EchoRank
    case Add(_) => AddRank
    case Commit(_) => CommitRank
    case AddRemote(_) => RemoteRank
    case Push => PushRank
  }

  /** The literal text of each command (index.js:70, 84, 87, 92, 93, 97, 100).
      Nothing is escaped: paths, contents, messages and URLs are interpolated as they are. */
  function Render(s: Step): (text: string) {
    match s
    case Init => "git init"
    case Touch(p) => "touch \"" + p + "\""
    case Echo(c, p) => "echo \"" + c + "\" >> " + p
    case Add(f) => "git add " + f
    case Commit(m) => "git commit -m " + m
    case AddRemote(u) => "git remote add origin " + u
    case Push => PushCommand
  }

  /** Which kind of step a command string is, read off its fixed leading text. */
  function Classify(segment: string): (k: Option<nat>) {
    if StartsWith(segment, "touch \"") then Some(TouchRank)
    else if StartsWith(segment, "echo \"") then Some(EchoRank)
    else if StartsWith(segment, "git add ") then Some(AddRank)
    else if StartsWith(segment, "git commit -m ") then Some(CommitRank)
    else if StartsWith(segment, "git remote add origin ") then Some(RemoteRank)
    else if segment == PushCommand then Some(PushRank)
    else if segment == "git init" then Some(InitRank)
    else None
  }

  /** Every rendered command can be told apart by its leading text, so the
      string form alone says which step produced it. */
  lemma ClassifyRender(s: Step)
    ensures Classify(Render(s)) == Some(Rank(s))
  {
    var r := Render(s);
    match s
    case Init =>
      assert r[0] != "touch \""[0] && r[0] != "echo \""[0];
      assert r[4] != "git add "[4] && r[4] != "git commit -m "[4] && r[4] != "git remote add origin "[4];
    case Touch(p) =>
      assert r[..7] == "touch \"";
    case Echo(c, p) =>
      assert r[0] != "touch \""[0];
      assert r[..6] == "echo \"";
    case Add(f) =>
      assert r[0] != "touch \""[0] && r[0] != "echo \""[0];
      assert r[..8] == "git add ";
    case Commit(m) =>
      assert r[0] != "touch \""[0] && r[0] != "echo \""[0];
      assert r[4] != "git add "[4];
      assert r[..14] == "git commit -m ";
    case AddRemote(u) =>
      assert r[0] != "touch \""[0] && r[0] != "echo \""[0];
      assert r[4] != "git add "[4] && r[4] != "git commit -m "[4];
      assert r[..22] == "git remote add origin ";
    case Push =>
      assert r[0] != "touch \""[0] && r[0] != "echo \""[0];
      assert r[4] != "git add "[4] && r[4] != "git commit -m "[4] && r[4] != "git remote add origin "[4];
  }

  // ---------------------------------------------------------------------------
  // Normalising the options (index.js:69, 72, 79-81)

  /** Options the model covers: `forceFile: true` together with `file: false`
      makes the source dereference `false.path` and emit `touch "undefined"`. */
  predicate Consistent(o: Options) {
    !(o.forceFile == Some(true) && o.file == Some(Disabled))
  }

  /** Defaults merged in, then the legacy `skipCommit: true` folded into `commit: false`. */
  function Normalize(o: Options): (opts: Options)
    ensures opts.message.Some? && opts.file.Some?
    ensures opts.commit == Some(false) <==> (o.commit == Some(false) || o.skipCommit == Some(true))
    ensures opts.(commit := o.commit) == Merge(o)
    // the flag only ever switches commits off; without it the merge is untouched
    ensures o.skipCommit == Some(true) ==> opts == Merge(o).(commit := Some(false))
    ensures o.skipCommit != Some(true) ==> opts == Merge(o)
  {
    var opts := Merge(o);
    if opts.skipCommit == Some(true) then opts.(commit := Some(false)) else opts
  }

  /** `opts.message || 'First commit'`: an explicitly falsy message (here the
      empty string) falls back to a capitalised text different from the default. */
  function MessageOf(opts: Options): (m: string)
    ensures m != ""
    ensures opts.message.Some? && opts.message.value != "" ==> m == opts.message.value
    ensures opts.message.None? || opts.message == Some("") ==> m == FallbackMessage
  {
    match opts.message
    case Some(m) => if m == "" then FallbackMessage else m
    case None => FallbackMessage
  }

  predicate StartsWithQuote(m: string) { |m| > 0 && m[0] == '"' }
  predicate EndsWithQuote(m: string) { |m| > 0 && m[|m| - 1] == '"' }

  /** index.js:74-76: wrap the message in double quotes unless it already starts
      or ends with one. */
  function Quote(m: string): (r: string)
    ensures StartsWithQuote(r) || EndsWithQuote(r)
    ensures StartsWithQuote(m) || EndsWithQuote(m) ==> r == m
    ensures !StartsWithQuote(m) && !EndsWithQuote(m) ==>
      |r| == |m| + 2 && StartsWithQuote(r) && EndsWithQuote(r) && r[1..|r| - 1] == m
  {
    if !StartsWithQuote(m) && !EndsWithQuote(m) then "\"" + m + "\"" else m
  }

  /** Quoting is idempotent: a message is wrapped at most once. */
  lemma QuoteIdempotent(m: string)
    ensures Quote(Quote(m)) == Quote(m)
  {
  }

  /** A quote at only one end is enough to suppress wrapping, so such a message
      reaches the shell with unbalanced quotes. */
  lemma QuoteOneSided()
    ensures Quote("say \"hi\"") == "say \"hi\""
    ensures Quote("\"draft") == "\"draft"
    ensures Quote("foo") == "\"foo\""
  {
  }

  /** The two built-in messages both reach the shell wrapped in quotes. */
  lemma QuotedBuiltins()
    ensures Quote(DefaultMessage) == "\"first commit\""
    ensures Quote(FallbackMessage) == "\"First commit\""
  {
    QuotedPlain(DefaultMessage, "\"first commit\"");
    QuotedPlain(FallbackMessage, "\"First commit\"");
  }

  /** A message with no quote at either end is wrapped into the given text. */
  lemma QuotedPlain(m: string, quoted: string)
    requires |m| > 0 && m[0] != '"' && m[|m| - 1] != '"'
    requires quoted == "\"" + m + "\""
    ensures Quote(m) == quoted
  {
  }

  /** JavaScript truthiness of the `files` option. */
  predicate FilesGiven(files: Option<FilesSpec>) {
    match files
    case None => false
    case Some(Single(name)) => name != ""
    case Some(List(_)) => true
  }

  /** index.js:71: what `git add` stages. */
  function FilesArg(files: Option<FilesSpec>): (arg: string)
    // a falsy `files` stages everything
    ensures files.None? || files == Some(Single("")) ==> arg == "."
    // a lone name is staged as given
    ensures files.Some? && files.value.Single? && files.value.name != "" ==> arg == files.value.name
    // an array is truthy even when empty, and then leaves `git add` without a pathspec
    ensures files == Some(List([])) ==> arg == ""
    // a non-empty array: its names, in order, with one space between neighbours
    ensures files.Some? && files.value.List? && |files.value.names| > 0 ==>
      && StartsWith(arg, files.value.names[0])
      && |arg| == TotalLength(files.value.names) + |files.value.names| - 1
  {
    if FilesGiven(files) then
      var names := Arrayify(files);
      if |names| > 0 then JoinLength(names, " "); Join(names, " ") else Join(names, " ")
    else "."
  }

  /** Splitting the `git add` argument at spaces gives back the arrayified names,
      as long as no name contains a space. */
  lemma FilesArgRoundTrip(files: Option<FilesSpec>)
    requires FilesGiven(files) && |Arrayify(files)| > 0
    requires forall i :: 0 <= i < |Arrayify(files)| ==> ' ' !in Arrayify(files)[i]
    ensures Split(FilesArg(files), ' ') == Arrayify(files)
  {
    SplitJoin(Arrayify(files), ' ');
  }

  /** JavaScript truthiness of the seed file's `contents`. */
  predicate ContentsGiven(contents: Option<string>) {
    contents.Some? && contents.value != ""
  }

  // ---------------------------------------------------------------------------
  // The conditions under which each group of steps is emitted

  /** index.js:83 */
  predicate SeedWanted(opts: Options, dirEmpty: bool) {
    opts.forceFile == Some(true) || (opts.file != Some(Disabled) && dirEmpty)
  }

  /** index.js:91 */
  predicate CommitWanted(opts: Options) {
    opts.commit != Some(false)
  }

  /** index.js:96 */
  predicate RemoteWanted(opts: Options, isGitUrl: string -> bool) {
    opts.remote.Some? && isGitUrl(opts.remote.value)
  }

  /** index.js:99 */
  predicate PushWanted(opts: Options, isGitUrl: string -> bool) {
    RemoteWanted(opts, isGitUrl) && opts.push == Some(true)
  }

  // ---------------------------------------------------------------------------
  // The declarative description: which steps belong, and in what order

  /** Whether `s` belongs in the command for these (normalised) options, kind by kind. */
  predicate Wanted(opts: Options, dirEmpty: bool, isGitUrl: string -> bool, s: Step) {
    match s
    case Init => true
    case Touch(_) => SeedStepWanted(opts, dirEmpty, s)
    case Echo(_, _) => SeedStepWanted(opts, dirEmpty, s)
    case Add(_) => CommitStepWanted(opts, s)
    case Commit(_) => CommitStepWanted(opts, s)
    case AddRemote(_) => RemoteStepWanted(opts, isGitUrl, s)
    case Push => RemoteStepWanted(opts, isGitUrl, s)
  }

  /** The seed file's path is touched; its contents, when truthy, are appended to it. */
  predicate SeedStepWanted(opts: Options, dirEmpty: bool, s: Step) {
    && SeedWanted(opts, dirEmpty) && opts.file.Some? && opts.file.value.Seed?
    && match s
       case Touch(p) => p == opts.file.value.path
       case Echo(c, p) =>
         p == opts.file.value.path && ContentsGiven(opts.file.value.contents) && c == opts.file.value.contents.value
       case _ => false
  }

  /** The files are staged and committed with the quoted message. */
  predicate CommitStepWanted(opts: Options, s: Step) {
    && CommitWanted(opts)
    && match s
       case Add(f) => f == FilesArg(opts.files)
       case Commit(m) => m == Quote(MessageOf(opts))
       case _ => false
  }

  /** The remote is registered, and pushed to when asked. */
  predicate RemoteStepWanted(opts: Options, isGitUrl: string -> bool, s: Step) {
    && RemoteWanted(opts, isGitUrl)
    && match s
       case AddRemote(u) => u == opts.remote.value
       case Push => opts.push == Some(true)
       case _ => false
  }

  /** Ranks strictly increase along the list: the fixed order, each kind at most once. */
  predicate StrictlyRanked(r: seq<Step>) {
    forall i, j :: 0 <= i < j < |r| ==> Rank(r[i]) < Rank(r[j])
  }

  /** A listing meets the description: exactly the wanted steps, in the fixed order. */
  ghost predicate Describes(o: Options, dirEmpty: bool, isGitUrl: string -> bool, r: seq<Step>) {
    && StrictlyRanked(r)
    && forall s :: s in r <==> Wanted(Normalize(o), dirEmpty, isGitUrl, s)
  }

  /** Gluing the groups after `git init` keeps the fixed order and the wanted steps. */
  lemma Assemble(opts: Options, dirEmpty: bool, isGitUrl: string -> bool,
                        seed: seq<Step>, commit: seq<Step>, remote: seq<Step>)
    requires forall i :: 0 <= i < |seed| ==> TouchRank <= Rank(seed[i]) <= EchoRank
    requires forall i :: 0 <= i < |commit| ==> AddRank <= Rank(commit[i]) <= CommitRank
    requires forall i :: 0 <= i < |remote| ==> RemoteRank <= Rank(remote[i]) <= PushRank
    requires forall s :: s in seed <==> SeedStepWanted(opts, dirEmpty, s)
    requires forall s :: s in commit <==> CommitStepWanted(opts, s)
    requires forall s :: s in remote <==> RemoteStepWanted(opts, isGitUrl, s)
    requires StrictlyRanked(seed) && StrictlyRanked(commit) && StrictlyRanked(remote)
    ensures StrictlyRanked([Init] + seed + commit + remote)
    ensures forall s :: s in [Init] + seed + commit + remote <==> Wanted(opts, dirEmpty, isGitUrl, s)
  {
    RankedConcat([Init], seed);
    RankedConcat([Init] + seed, commit);
    RankedConcat([Init] + seed + commit, remote);
    forall s ensures s in [Init] + seed + commit + remote <==> Wanted(opts, dirEmpty, isGitUrl, s) {
      if s in seed { var i :| 0 <= i < |seed| && seed[i] == s; }
      if s in commit { var i :| 0 <= i < |commit| && commit[i] == s; }
      if s in remote { var i :| 0 <= i < |remote| && remote[i] == s; }
    }
  }

  // ---------------------------------------------------------------------------
  // The builder, group by group as the source pushes them

  /** index.js:83-89: the seed file's `touch`, then its `echo` when it has contents. */
  function SeedSteps(opts: Options, dirEmpty: bool): (r: seq<Step>)
    requires Consistent(opts) && opts.file.Some?
    ensures StrictlyRanked(r)
    ensures forall i :: 0 <= i < |r| ==> TouchRank <= Rank(r[i]) <= EchoRank
    ensures forall s :: s in r <==> SeedStepWanted(opts, dirEmpty, s)
  {
    if SeedWanted(opts, dirEmpty) then
      match opts.file.value
      case Disabled => []
      case Seed(path, contents) =>
        [Touch(path)] + (if ContentsGiven(contents) then [Echo(contents.value, path)] else [])
    else []
  }

  /** index.js:91-94: `git add`, then `git commit`. */
  function CommitSteps(opts: Options): (r: seq<Step>)
    ensures StrictlyRanked(r)
    ensures forall i :: 0 <= i < |r| ==> AddRank <= Rank(r[i]) <= CommitRank
    ensures forall s :: s in r <==> CommitStepWanted(opts, s)
  {
    if CommitWanted(opts) then [Add(FilesArg(opts.files)), Commit(Quote(MessageOf(opts)))] else []
  }

  /** index.js:96-102: the remote, then the forced push. */
  function RemoteSteps(opts: Options, isGitUrl: string -> bool): (r: seq<Step>)
    ensures StrictlyRanked(r)
    ensures forall i :: 0 <= i < |r| ==> RemoteRank <= Rank(r[i]) <= PushRank
    ensures forall s :: s in r <==> RemoteStepWanted(opts, isGitUrl, s)
  {
    if RemoteWanted(opts, isGitUrl) then
      [AddRemote(opts.remote.value)] + (if opts.push == Some(true) then [Push] else [])
    else []
  }

  lemma RankedConcat(a: seq<Step>, b: seq<Step>)
    requires StrictlyRanked(a) && StrictlyRanked(b)
    requires forall i, j :: 0 <= i < |a| && 0 <= j < |b| ==> Rank(a[i]) < Rank(b[j])
    ensures StrictlyRanked(a + b)
  {
  }

  /** The steps of `createArgs(options)`, before rendering. */
  function Steps(o: Options, dirEmpty: bool, isGitUrl: string -> bool): (r: seq<Step>)
    requires Consistent(o)
    ensures 1 <= |r| <= 7 && r[0] == Init
    ensures Describes(o, dirEmpty, isGitUrl, r)
  {
    var opts := Normalize(o);
    var seed := SeedSteps(opts, dirEmpty);
    var commit := CommitSteps(opts);
    var remote := RemoteSteps(opts, isGitUrl);
    Assemble(opts, dirEmpty, isGitUrl, seed, commit, remote);
    [Init] + seed + commit + remote
  }

  // ---------------------------------------------------------------------------
  // The description determines the steps

  /** Two strictly ranked listings of the same steps are the same listing. */
  lemma {:induction false} RankedListingUnique(a: seq<Step>, b: seq<Step>)
    requires StrictlyRanked(a) && StrictlyRanked(b)
    requires forall s :: s in a <==> s in b
    ensures a == b
    decreases |a|
  {
    if |a| > 0 {
      assert a[0] in a;
    }
    if |b| > 0 {
      assert b[0] in b;
    }
    if |a| > 0 && |b| > 0 {
      assert a[0] in b;
      var k :| 0 <= k < |b| && b[k] == a[0];
      assert b[0] in a;
      var m :| 0 <= m < |a| && a[m] == b[0];
      assert k == 0;
      forall s
        ensures s in a[1..] <==> s in b[1..]
      {
        RankedTail(a, s);
        RankedTail(b, s);
      }
      RankedListingUnique(a[1..], b[1..]);
      assert a == [a[0]] + a[1..] && b == [b[0]] + b[1..];
    }
  }

  /** Ranks in a strictly ranked listing grow at least as fast as positions. */
  lemma {:induction false} RankGap(r: seq<Step>, i: nat, j: nat)
    requires StrictlyRanked(r) && i <= j < |r|
    ensures Rank(r[j]) - Rank(r[i]) >= j - i
    decreases j - i
  {
    if i < j {
      RankGap(r, i, j - 1);
    }
  }

  /** In a strictly ranked listing, steps of consecutive ranks are neighbours. */
  lemma RankedAdjacent(r: seq<Step>, i: nat, j: nat)
    requires StrictlyRanked(r) && i < j < |r| && Rank(r[j]) <= Rank(r[i]) + 1
    ensures j == i + 1
  {
    RankGap(r, i, j);
  }

  /** In a strictly ranked listing, a step of the highest rank is the last one. */
  lemma RankedLast(r: seq<Step>, k: nat)
    requires StrictlyRanked(r) && k < |r| && Rank(r[k]) == PushRank
    ensures k == |r| - 1
  {
    RankGap(r, k, |r| - 1);
  }

  /** In a strictly ranked listing, the tail holds every element except the head. */
  lemma RankedTail(a: seq<Step>, s: Step)
    requires StrictlyRanked(a) && |a| > 0
    ensures s in a[1..] <==> s in a && s != a[0]
  {
    if s in a[1..] {
      var i :| 0 <= i < |a[1..]| && a[1..][i] == s;
      assert a[i + 1] == s && Rank(a[0]) < Rank(s);
    }
    if s in a && s != a[0] {
      var i :| 0 <= i < |a| && a[i] == s;
      assert a[1..][i - 1] == s;
    }
  }

  /** The builder is the only listing that meets the description: any command
      list holding exactly the wanted steps in the fixed order is `Steps`. */
  lemma StepsUnique(o: Options, dirEmpty: bool, isGitUrl: string -> bool, r: seq<Step>)
    requires Consistent(o)
    requires Describes(o, dirEmpty, isGitUrl, r)
    ensures r == Steps(o, dirEmpty, isGitUrl)
  {
    RankedListingUnique(r, Steps(o, dirEmpty, isGitUrl));
  }

  // ---------------------------------------------------------------------------
  // Which steps appear, stated on the caller's options

  /** The seed `touch` is present iff `forceFile === true`, or the file is not
      disabled and the directory is empty; it touches the caller's path, or
      `.gitkeep` when no `file` was supplied. */
  lemma SeedPresence(o: Options, dirEmpty: bool, isGitUrl: string -> bool, r: seq<Step>)
    requires Consistent(o) && Describes(o, dirEmpty, isGitUrl, r)
    ensures (exists s :: s in r && s.Touch?) <==> (o.forceFile == Some(true) || (o.file != Some(Disabled) && dirEmpty))
    ensures forall s :: s in r && s.Touch? ==> s.path == (if o.file.Some? then o.file.value.path else ".gitkeep")
  {
    var opts := Normalize(o);
    if o.forceFile == Some(true) || (o.file != Some(Disabled) && dirEmpty) {
      assert Wanted(opts, dirEmpty, isGitUrl, Touch(opts.file.value.path));
    }
  }

  /** An `echo` appears only right after the `touch` of the same path, and only
      when the seed file has non-empty contents. */
  lemma EchoFollowsTouch(o: Options, dirEmpty: bool, isGitUrl: string -> bool, r: seq<Step>, i: nat)
    requires Describes(o, dirEmpty, isGitUrl, r)
    requires i < |r| && r[i].Echo?
    ensures i > 0 && r[i - 1] == Touch(r[i].target)
    ensures Merge(o).file.value.Seed? && ContentsGiven(Merge(o).file.value.contents)
  {
    var opts := Normalize(o);
    assert r[i] in r;
    var t := Touch(r[i].target);
    assert Wanted(opts, dirEmpty, isGitUrl, t);
    var j :| 0 <= j < |r| && r[j] == t;
    assert j < i;
    RankedAdjacent(r, j, i);
  }

  /** The `echo` appears iff the seed file is touched and the caller's file has
      non-empty contents; it appends exactly those contents to the touched path. */
  lemma EchoPresence(o: Options, dirEmpty: bool, isGitUrl: string -> bool, r: seq<Step>)
    requires Consistent(o) && Describes(o, dirEmpty, isGitUrl, r)
    ensures (exists s :: s in r && s.Echo?) <==>
      && (o.forceFile == Some(true) || (o.file != Some(Disabled) && dirEmpty))
      && o.file.Some? && o.file.value.Seed? && ContentsGiven(o.file.value.contents)
    ensures forall s :: s in r && s.Echo? ==>
      && o.file.Some? && o.file.value.Seed?
      && s.contents == o.file.value.contents.value && s.target == o.file.value.path
  {
    if && (o.forceFile == Some(true) || (o.file != Some(Disabled) && dirEmpty))
       && o.file.Some? && o.file.value.Seed? && ContentsGiven(o.file.value.contents)
    {
      assert Wanted(Normalize(o), dirEmpty, isGitUrl, Echo(o.file.value.contents.value, o.file.value.path));
    }
  }

  /** `git add` and `git commit` appear, adjacent and in that order, iff `commit`
      is not `false` and the legacy `skipCommit` is not `true`. */
  lemma CommitPresence(o: Options, dirEmpty: bool, isGitUrl: string -> bool, r: seq<Step>)
    requires Describes(o, dirEmpty, isGitUrl, r)
    ensures (exists s :: s in r && s.Add?) <==> (o.commit != Some(false) && o.skipCommit != Some(true))
    ensures (exists s :: s in r && s.Commit?) <==> (o.commit != Some(false) && o.skipCommit != Some(true))
    ensures forall i, j :: 0 <= i < |r| && 0 <= j < |r| && r[i].Add? && r[j].Commit? ==> j == i + 1
  {
    var opts := Normalize(o);
    if o.commit != Some(false) && o.skipCommit != Some(true) {
      assert Wanted(opts, dirEmpty, isGitUrl, Add(FilesArg(opts.files)));
      assert Wanted(opts, dirEmpty, isGitUrl, Commit(Quote(MessageOf(opts))));
    }
    forall i, j | 0 <= i < |r| && 0 <= j < |r| && r[i].Add? && r[j].Commit?
      ensures j == i + 1
    {
      assert i < j;
      RankedAdjacent(r, i, j);
    }
  }

  /** The legacy flag is only an alias: `skipCommit: true` builds exactly what `commit: false` builds. */
  lemma SkipCommitIsCommitFalse(o: Options, dirEmpty: bool, isGitUrl: string -> bool)
    requires Consistent(o)
    ensures Steps(o.(skipCommit := Some(true)), dirEmpty, isGitUrl)
         == Steps(o.(commit := Some(false), skipCommit := None), dirEmpty, isGitUrl)
  {
    var p, q := Normalize(o.(skipCommit := Some(true))), Normalize(o.(commit := Some(false), skipCommit := None));
    assert p.(skipCommit := None) == q;
    assert SeedSteps(p, dirEmpty) == SeedSteps(q, dirEmpty);
    assert CommitSteps(p) == CommitSteps(q) == [];
    assert RemoteSteps(p, isGitUrl) == RemoteSteps(q, isGitUrl);
  }

  /** What `git add` stages: `.` without `files`, a lone name (or a one-element
      array) as given. */
  lemma StagedFiles(o: Options, dirEmpty: bool, isGitUrl: string -> bool, r: seq<Step>, name: string)
    requires Describes(o, dirEmpty, isGitUrl, r)
    requires name != ""
    ensures o.files.None? ==> (Add(".") in r <==> CommitWanted(Normalize(o)))
    ensures o.files == Some(Single(name)) || o.files == Some(List([name])) ==>
      (Add(name) in r <==> CommitWanted(Normalize(o)))
  {
    var opts := Normalize(o);
    assert opts.files == o.files;
    assert o.files.None? ==> FilesArg(opts.files) == ".";
    assert o.files == Some(Single(name)) || o.files == Some(List([name])) ==> FilesArg(opts.files) == name;
    assert Wanted(opts, dirEmpty, isGitUrl, Add(FilesArg(opts.files))) <==> CommitWanted(opts);
  }

  /** What the commit says: the default message, or the capitalised fallback for
      an explicitly empty one, in both cases quoted. */
  lemma CommitMessage(o: Options, dirEmpty: bool, isGitUrl: string -> bool, r: seq<Step>)
    requires Describes(o, dirEmpty, isGitUrl, r)
    ensures o.message.None? ==> (Commit("\"first commit\"") in r <==> CommitWanted(Normalize(o)))
    ensures o.message == Some("") ==> (Commit("\"First commit\"") in r <==> CommitWanted(Normalize(o)))
  {
    var opts := Normalize(o);
    QuotedBuiltins();
    assert o.message.None? ==> opts.message == Some(DefaultMessage);
    assert o.message == Some("") ==> MessageOf(opts) == FallbackMessage;
    assert Wanted(opts, dirEmpty, isGitUrl, Commit(Quote(MessageOf(opts)))) <==> CommitWanted(opts);
  }

  /** The remote is registered iff `remote` is a string the validator accepts; the
      push follows iff moreover `push === true`, and is then the last step. */
  lemma RemotePresence(o: Options, dirEmpty: bool, isGitUrl: string -> bool, r: seq<Step>)
    requires Describes(o, dirEmpty, isGitUrl, r)
    ensures (exists s :: s in r && s.AddRemote?) <==> (o.remote.Some? && isGitUrl(o.remote.value))
    ensures Push in r <==> (o.remote.Some? && isGitUrl(o.remote.value) && o.push == Some(true))
    ensures Push in r ==> r[|r| - 1] == Push
  {
    var opts := Normalize(o);
    if o.remote.Some? && isGitUrl(o.remote.value) {
      assert Wanted(opts, dirEmpty, isGitUrl, AddRemote(o.remote.value));
    }
    if Push in r {
      var k :| 0 <= k < |r| && r[k] == Push;
      RankedLast(r, k);
    }
  }

  /** With the seed file off (and not forced), commits off and no valid remote,
      only `git init` is left. */
  lemma OnlyInit(o: Options, dirEmpty: bool, isGitUrl: string -> bool)
    requires o.file == Some(Disabled) && o.forceFile != Some(true)
    requires o.commit == Some(false) || o.skipCommit == Some(true)
    requires !(o.remote.Some? && isGitUrl(o.remote.value))
    ensures Steps(o, dirEmpty, isGitUrl) == [Init]
  {
  }

  /** The builder reads the working directory only through `dirEmpty`. */
  lemma StepsIgnoreCwd(o: Options, dirEmpty: bool, isGitUrl: string -> bool, cwd: Option<string>)
    requires Consistent(o)
    ensures Steps(o.(cwd := cwd), dirEmpty, isGitUrl) == Steps(o, dirEmpty, isGitUrl)
  {
    NormalizeIgnoresCwd(o, cwd);
    var p, q := Normalize(o), Normalize(o.(cwd := cwd));
    assert SeedSteps(q, dirEmpty) == SeedSteps(p, dirEmpty);
    assert CommitSteps(q) == CommitSteps(p);
    assert RemoteSteps(q, isGitUrl) == RemoteSteps(p, isGitUrl);
  }

  lemma NormalizeIgnoresCwd(o: Options, cwd: Option<string>)
    ensures Normalize(o.(cwd := cwd)) == Normalize(o).(cwd := cwd)
  {
  }

  // ---------------------------------------------------------------------------
  // The two string forms of `createArgs`

  /** The command text of each step, in order. */
  function RenderAll(steps: seq<Step>): (r: seq<string>)
    ensures |r| == |steps|
    ensures forall i :: 0 <= i < |r| ==> r[i] == Render(steps[i])
  {
    seq(|steps|, i requires 0 <= i < |steps| => Render(steps[i]))
  }

  /** The `args` array of `createArgs`: one shell command per step. */
  function Segments(o: Options, dirEmpty: bool, isGitUrl: string -> bool): (r: seq<string>)
    requires Consistent(o)
    ensures |r| == |Steps(o, dirEmpty, isGitUrl)| && 1 <= |r| <= 7 && r[0] == "git init"
    // each command string names the kind of step it came from ...
    ensures forall i :: 0 <= i < |r| ==> Classify(r[i]) == Some(Rank(Steps(o, dirEmpty, isGitUrl)[i]))
    // ... so the fixed order can be read off the strings themselves
    ensures forall i, j :: 0 <= i < j < |r| ==> Classify(r[i]).value < Classify(r[j]).value
  {
    var steps := Steps(o, dirEmpty, isGitUrl);
    var r := RenderAll(steps);
    forall i | 0 <= i < |r|
      ensures Classify(r[i]) == Some(Rank(steps[i]))
    {
      ClassifyRender(steps[i]);
    }
    r
  }

  /** `createArgs(options)`: the commands joined with `" && "`. */
  function CreateArgs(o: Options, dirEmpty: bool, isGitUrl: string -> bool): (command: string)
    requires Consistent(o)
    ensures StartsWith(command, "git init")
  {
    Join(Segments(o, dirEmpty, isGitUrl), Separator)
  }

  /** The command's length: every command's text plus four characters per `" && "`. */
  lemma CreateArgsLength(o: Options, dirEmpty: bool, isGitUrl: string -> bool)
    requires Consistent(o)
    ensures |CreateArgs(o, dirEmpty, isGitUrl)|
         == TotalLength(Segments(o, dirEmpty, isGitUrl)) + 4 * (|Segments(o, dirEmpty, isGitUrl)| - 1)
  {
    JoinLength(Segments(o, dirEmpty, isGitUrl), Separator);
  }

  /** A described listing with a push ends by registering the remote and then force-pushing. */
  lemma PushEndsJoin(o: Options, dirEmpty: bool, isGitUrl: string -> bool, r: seq<Step>)
    requires Describes(o, dirEmpty, isGitUrl, r) && |r| > 0 && r[0] == Init
    requires o.remote.Some? && isGitUrl(o.remote.value) && o.push == Some(true)
    ensures EndsWith(Join(RenderAll(r), Separator),
                     Separator + Render(AddRemote(o.remote.value)) + Separator + Render(Push))
  {
    RemotePresence(o, dirEmpty, isGitUrl, r);
    var n := |r|;
    var k :| 0 <= k < n && r[k] == AddRemote(o.remote.value);
    var last :| 0 <= last < n && r[last] == Push;
    RankedLast(r, last);
    RankedAdjacent(r, k, n - 1);
    RankGap(r, 0, k);
    RenderedTail(r, o.remote.value);
  }

  /** A listing ending in the remote and the push renders to a command ending in those two commands. */
  lemma RenderedTail(r: seq<Step>, url: string)
    requires |r| >= 3 && r[|r| - 2] == AddRemote(url) && r[|r| - 1] == Push
    ensures EndsWith(Join(RenderAll(r), Separator), Separator + Render(AddRemote(url)) + Separator + Render(Push))
  {
    var segs := RenderAll(r);
    assert segs[|r| - 2] == Render(AddRemote(url));
    assert segs[|r| - 1] == Render(Push);
    JoinEndsWithLastTwo(segs, Separator);
  }

  /** When a push is requested and the remote is valid, the command ends by
      registering the remote and then force-pushing. */
  lemma PushEndsCommand(o: Options, dirEmpty: bool, isGitUrl: string -> bool)
    requires Consistent(o)
    requires o.remote.Some? && isGitUrl(o.remote.value) && o.push == Some(true)
    ensures EndsWith(CreateArgs(o, dirEmpty, isGitUrl),
                     Separator + Render(AddRemote(o.remote.value)) + Separator + Render(Push))
  {
    PushEndsJoin(o, dirEmpty, isGitUrl, Steps(o, dirEmpty, isGitUrl));
  }
}
