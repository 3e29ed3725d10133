# gfc: the first-commit command builder, in Dafny

`gfc` initialises a git repository in a directory and makes its first commit
by running one composed shell command. This project models the pure core of
that library:

- `createArgs`, which merges the caller's options with the defaults and builds
  the `" && "`-joined command (`git init`, the seed-file `touch`/`echo`,
  `git add`/`git commit`, `git remote add origin`, the forced push);
- `garbage`, the filter that lets `Thumbs.db` / `.DS_Store` entries not count
  when deciding whether the directory is empty;
- `arrayify`, which turns the `files` option into a list;
- the working-directory / process-settings merge that both entry points perform
  before running the command.

Modules, in dependency order:

- `Wrappers`: `Option`.
- `Strings`: `Array.prototype.join` and its inverse `split`, prefix and suffix tests, ASCII case folding.
- `Junk`: the `garbage` filter.
- `Config`: the options record, `Object.assign`, the defaults and `arrayify`.
- `Exec`: the `cwd` and `exec` merge.
- `Command`: the builder.
- `Scenarios`: the repository's own `createArgs` test cases, as lemmas.

The builder is specified twice:

- operationally, as `Command.Steps`, which pushes the groups of steps in the
  order the source pushes them;
- declaratively, as `Command.Describes`: a listing holds exactly the steps that
  are wanted for the normalised options, with strictly increasing step kinds.

`Command.StepsUnique` proves that the builder's listing is the only one meeting
that description. The presence lemmas then state every branch of the source in
terms of the caller's options.

An absent JavaScript property is `None`. So is a flag (`forceFile`, `commit`,
`skipCommit`, `push`) holding anything but a boolean, and a `remote` that is
not a string: the source compares the flags with `=== true` / `!== false` and
tests `remote` with `typeof`, so such values act as if absent. The flags keep
the source's literal comparisons. An explicitly falsy `message` is `Some("")`. The
directory-emptiness result (`dirEmpty`) and the `is-git-url` validator
(`isGitUrl`) are parameters of the builder.

Two behaviours of the code are modelled as written:

- A message is left unwrapped when it starts **or** ends with a double quote.
  It is not required to be wrapped at both ends.
- An empty or falsy message falls back to `First commit`, capitalised. The
  default message is `first commit`.

## Model

| member | source | states |
|---|---|---|
| Junk.Garbage | index.js:111-113 | a path is kept iff it does not end, ignoring ASCII case, in `Thumbs.db` or `.DS_Store`; anything shorter than nine characters is kept |
| Junk.GarbageIgnoresCase | index.js:112 | the `i` flag: two paths equal up to ASCII case get the same verdict |
| Junk.JunkInAnyDirectory | index.js:112 | the `$` anchor: a junk name stays junk under any directory prefix |
| Junk.GarbageExamples | index.js:111-113 | `photos/THUMBS.DB` and `sub/.ds_store` are dropped; `.DS_Store.bak`, `Thumbs.db/readme.md` and `.gitkeep` are kept |
| Config.AssignLaws | index.js:69 | `Object.assign` over the options: the empty object is a left and right identity, assigning an object onto itself changes nothing, chained assigns associate |
| Config.Merge | index.js:69 | merging the defaults (index.js:11-14): the message and the seed file are always present; a supplied message or file replaces the default wholesale (the merge is shallow); every other option is the caller's unchanged |
| Config.ArrayifyNormalises | index.js:115-117 | `arrayify` gives `[]` for a missing value, `[name]` for a lone name and any array unchanged; so a lone name means the same as a one-element array, and arrayifying twice is arrayifying once |
| Exec.Prepare | index.js:29-30 | an option-supplied `cwd` overrides the positional one and nothing else changes; the process settings always carry that directory as `cwd`, pass every other `exec` key through unchanged and invent no key (the same two lines recur at index.js:54-55) |
| Exec.PrepareIdempotent | index.js:29-30 | preparing the already prepared options again, with any positional directory, reproduces the same options and settings |
| Command.Normalize | index.js:79-81 | after the merge, `commit` is `false` iff the caller gave `commit: false` or `skipCommit: true`; with `skipCommit: true` only `commit` is overwritten, and otherwise the merged options are left exactly as they are |
| Command.MessageOf | index.js:72 | the message used is never empty: the caller's non-empty message, else `First commit` |
| Command.Quote | index.js:74-76 | the result starts or ends with a quote; a message already starting or ending with one is unchanged; any other is wrapped as `"m"` with `m` intact inside |
| Command.QuoteIdempotent | index.js:74-76 | quoting a quoted message changes nothing |
| Command.QuoteOneSided | index.js:74 | a quote at one end suffices: `say "hi"` and `"draft` pass unwrapped, `foo` becomes `"foo"` |
| Command.QuotedBuiltins | index.js:72-76 | both built-in messages reach the commit quoted: `"first commit"`, `"First commit"` |
| Command.FilesArg | index.js:71 | `git add` stages `.` when `files` is missing or the empty string; a lone name is staged as given; an empty array, being truthy, leaves an empty pathspec; a non-empty array gives a text that starts with its first name and is as long as its names plus one space per gap |
| Command.FilesArgRoundTrip | index.js:71 | splitting the `git add` argument at spaces gives back exactly the arrayified names, for any truthy `files` with at least one name and no name containing a space |
| Command.ClassifyRender | index.js:70-100 | every rendered command can be told apart by its leading text, so its kind is recoverable from the string |
| Command.SeedSteps | index.js:83-89 | the seed group is in order, uses only the touch and echo kinds, and holds exactly the wanted seed steps |
| Command.CommitSteps | index.js:91-94 | the commit group is in order, uses only the add and commit kinds, and holds exactly the wanted staging and commit steps |
| Command.RemoteSteps | index.js:96-102 | the remote group is in order, uses only the remote and push kinds, and holds exactly the wanted remote steps |
| Command.Steps | index.js:68-102 | the listing starts with `git init`, has one to seven steps and meets the declarative description: exactly the wanted steps, each kind at most once, in the fixed order |
| Command.StepsUnique | index.js:70-102 | any listing meeting the description equals the builder's, so the description determines the command |
| Command.SeedPresence | index.js:83-84 | a `touch` appears iff `forceFile === true`, or `file !== false` and the directory is empty; it touches the caller's `file.path`, or `.gitkeep` |
| Command.EchoPresence | index.js:83-87 | an `echo` appears iff the seed file is touched and the caller's `file` has non-empty contents; it appends exactly those contents to the caller's path |
| Command.EchoFollowsTouch | index.js:86-87 | an `echo` appears only right after the `touch` of its own target, and only when the seed file's contents are non-empty |
| Command.CommitPresence | index.js:78-94 | `git add` and `git commit` appear iff `commit !== false` and `skipCommit !== true`, and are adjacent, in that order |
| Command.SkipCommitIsCommitFalse | index.js:78-81 | `skipCommit: true` builds exactly what `commit: false` builds |
| Command.StagedFiles | index.js:71 | with no `files`, `git add .` is present iff commits are on; a lone non-empty name, or a one-element array, is staged as given |
| Command.CommitMessage | index.js:72-93 | with no message the commit is `git commit -m "first commit"`; with an empty one it is `"First commit"` |
| Command.RemotePresence | index.js:96-102 | the remote is added iff `remote` is a string the validator accepts; the push appears iff moreover `push === true`, and is then the last step |
| Command.OnlyInit | index.js:68-104 | with the seed file off and not forced, commits off and no valid remote, the command is `git init` alone |
| Command.StepsIgnoreCwd | index.js:83 | the builder reads the directory only through the emptiness test: changing `cwd` alone changes no step |
| Command.Segments | index.js:70-102 | the `args` array starts with `git init` and has one string per step; each string's kind is the step's; the kinds strictly increase along the array |
| Command.CreateArgs | index.js:104 | the command always begins with `git init` |
| Command.CreateArgsLength | index.js:104 | the command is exactly as long as its commands plus four characters for each `" && "` between them |
| Command.PushEndsCommand | index.js:96-104 | with a valid remote and `push === true`, the command ends with ` && git remote add origin <url> && git push --force origin master:master` |
| Strings.JoinAppend | index.js:104 | joining two non-empty halves and gluing them with the separator is joining the whole |
| Strings.JoinLength | index.js:104 | a join has the elements' total length plus one separator per gap |
| Strings.SplitJoin | index.js:71 | splitting at a one-character separator undoes joining with it, when no element contains that character |
| Strings.JoinEndsWithLastTwo | index.js:104 | a join of three or more ends with its last two elements, each preceded by the separator |
| Scenarios.DefaultCommand | test/create-args.js:21-25 | the defaults in an empty directory give `git init && touch ".gitkeep" && git add . && git commit -m "first commit"` |
| Scenarios.CustomFileCommand | test/create-args.js:27-31 | `file: {path: 'foo'}` touches `foo` and echoes nothing |
| Scenarios.CustomMessageCommand | test/create-args.js:33-37 | `message: 'foo'` commits with `-m "foo"` |
| Scenarios.RemoteCommand | test/create-args.js:39-43 | a valid remote appends `git remote add origin <url>` |
| Scenarios.PushCommand | test/create-args.js:45-49 | a valid remote with `push: true` appends the remote and then the forced push |

## Left out

- The entry points' I/O is not modelled: the `.git` existence test, `mkdirp`, `empty-dir`'s directory listing and `child_process.exec`/`execSync`. So are the promise and callback plumbing. Only what they feed into the builder is modelled: the merged options, the process settings and the emptiness result.
- The `.git already exists` error is not modelled. In the asynchronous path it is thrown and then swallowed by the following `.catch` (index.js:32-36); in the synchronous path it aborts (index.js:57-59). Both are I/O outcomes.
- The argument shifting on `typeof cwd !== 'string'` / `typeof options === 'function'` (index.js:21-27, 50-52) is not modelled: it only reorders parameters and reads `process.cwd()`.
- The synchronous path creates the positional `cwd` rather than `opts.cwd` (index.js:61-62). This is not modelled, because it is a file-system effect.
- `is-git-url` is foreign code and is a `string -> bool` parameter. `isEmpty` is likewise a boolean input; its only local part, `garbage`, is modelled in `Junk`.
- Command.Steps: requires `Consistent`, which excludes `forceFile: true` together with `file: false`. In that case the source reads `false.path` and emits `touch "undefined"`. The same precondition is carried by Command.SeedSteps, Command.Segments, Command.CreateArgs, Command.StepsUnique, Command.SeedPresence, Command.SkipCommitIsCommitFalse, Command.StepsIgnoreCwd and Command.PushEndsCommand.
- Config.Merge: only values that fit the option types are modelled. These are:
  - string messages and remotes;
  - a seed file object with a string `path`;
  - boolean flags.

  A file object without `path` (rendered `undefined`), a `Buffer` as contents (taken here as its string form), a non-string message, and properties explicitly set to `undefined` (treated as absent) are not modelled.
- Config.Merge: a `file` that is neither `false` nor an object (a string, a number or `null`) is not modelled. Such a value passes the `!== false` test at index.js:83, so the source then reads `opts.file.path`. A string or number emits `touch "undefined"` (index.js:84); `null` throws a `TypeError` once the seed step is taken. The model's `file` is either `Disabled` (`false`), a seed object, or absent, in which case `.gitkeep` is used.
- Nothing is shell-escaped, and the model keeps it that way: paths, contents, messages and URLs are interpolated verbatim.
- Exec.Prepare: the process settings carry only string, number and boolean values; other `exec` values (environment maps, streams) are not modelled.
- The root-level `test.js` is an older copy of the test suite. The scenarios follow `test/create-args.js`.
