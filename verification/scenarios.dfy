/** The exact commands the repository's own `createArgs` tests expect
    (test/create-args.js:21-49). Each test runs in a freshly created, empty
    fixture directory, so the directory is empty; the remote used there is one
    the URL validator accepts. The expected strings are written as the test's
    literals cut at each `" && "`. */
module Scenarios {
  import opened Wrappers
  import opened Strings
  import opened Config
  import opened Command

  const Fixture: string := "test/fixtures/temp"
  const GfcUrl: string := "https://github.com/jonschlinkert/gfc.git"

  lemma Join2(a: string, b: string, sep: string)
    ensures Join([a, b], sep) == a + sep + b
  {
    JoinSnoc([a], b, sep);
    assert [a] + [b] == [a, b];
  }

  lemma Join3(a: string, b: string, c: string, sep: string)
    ensures Join([a, b, c], sep) == a + sep + b + sep + c
  {
    Join2(a, b, sep);
    JoinSnoc([a, b], c, sep);
    assert [a, b] + [c] == [a, b, c];
  }

  lemma Join4(a: string, b: string, c: string, d: string, sep: string)
    ensures Join([a, b, c, d], sep) == a + sep + b + sep + c + sep + d
  {
    Join3(a, b, c, sep);
    JoinSnoc([a, b, c], d, sep);
    assert [a, b, c] + [d] == [a, b, c, d];
  }

  lemma Join5(a: string, b: string, c: string, d: string, e: string, sep: string)
    ensures Join([a, b, c, d, e], sep) == a + sep + b + sep + c + sep + d + sep + e
  {
    Join4(a, b, c, d, sep);
    JoinSnoc([a, b, c, d], e, sep);
    assert [a, b, c, d] + [e] == [a, b, c, d, e];
  }

  lemma Join6(a: string, b: string, c: string, d: string, e: string, f: string, sep: string)
    ensures Join([a, b, c, d, e, f], sep) == a + sep + b + sep + c + sep + d + sep + e + sep + f
  {
    Join5(a, b, c, d, e, sep);
    JoinSnoc([a, b, c, d, e], f, sep);
    assert [a, b, c, d, e] + [f] == [a, b, c, d, e, f];
  }

  /** The command is the join of the rendered steps. */
  lemma CreateArgsOf(o: Options, isGitUrl: string -> bool, steps: seq<Step>, segs: seq<string>)
    requires Consistent(o)
    requires Steps(o, true, isGitUrl) == steps && RenderAll(steps) == segs
    ensures CreateArgs(o, true, isGitUrl) == Join(segs, Separator)
  {
  }

  /** Rendering a known list of steps. */
  lemma RenderedAs(steps: seq<Step>, expected: seq<string>)
    requires |steps| == |expected|
    requires forall i :: 0 <= i < |steps| ==> Render(steps[i]) == expected[i]
    ensures RenderAll(steps) == expected
  {
  }

  /** The command for the default options plus whatever `extra` steps follow the commit. */
  lemma CommandOf(o: Options, isGitUrl: string -> bool, touched: string, contents: Option<string>,
                  message: string, extra: seq<Step>)
    requires Consistent(o)
    requires Normalize(o).file == Some(Seed(touched, contents)) && !ContentsGiven(contents)
    requires o.files.None?
    requires CommitWanted(Normalize(o)) && Quote(MessageOf(Normalize(o))) == message
    requires RemoteSteps(Normalize(o), isGitUrl) == extra
    ensures Steps(o, true, isGitUrl) == [Init, Touch(touched), Add("."), Commit(message)] + extra
  {
    var opts := Normalize(o);
    assert SeedSteps(opts, true) == [Touch(touched)];
    assert CommitSteps(opts) == [Add("."), Commit(message)];
  }

  /** The steps of the three scenarios without a remote. */
  lemma DefaultSteps(isGitUrl: string -> bool)
    ensures Steps(NoOptions.(cwd := Some(Fixture)), true, isGitUrl)
         == [Init, Touch(".gitkeep"), Add("."), Commit("\"first commit\"")]
  {
    var o := NoOptions.(cwd := Some(Fixture));
    QuotedBuiltins();
    assert Normalize(o).message == Some(DefaultMessage);
    CommandOf(o, isGitUrl, ".gitkeep", Some(""), "\"first commit\"", []);
  }

  lemma CustomFileSteps(isGitUrl: string -> bool)
    ensures Steps(NoOptions.(cwd := Some(Fixture), file := Some(Seed("foo", None))), true, isGitUrl)
         == [Init, Touch("foo"), Add("."), Commit("\"first commit\"")]
  {
    var o := NoOptions.(cwd := Some(Fixture), file := Some(Seed("foo", None)));
    QuotedBuiltins();
    assert Normalize(o).message == Some(DefaultMessage);
    CommandOf(o, isGitUrl, "foo", None, "\"first commit\"", []);
  }

  lemma CustomMessageSteps(isGitUrl: string -> bool)
    ensures Steps(NoOptions.(cwd := Some(Fixture), message := Some("foo")), true, isGitUrl)
         == [Init, Touch(".gitkeep"), Add("."), Commit("\"foo\"")]
  {
    var o := NoOptions.(cwd := Some(Fixture), message := Some("foo"));
    QuoteOneSided();
    assert MessageOf(Normalize(o)) == "foo";
    CommandOf(o, isGitUrl, ".gitkeep", Some(""), "\"foo\"", []);
  }

  /** The rendered commands of the three scenarios without a remote. */
  lemma LocalSegments(touched: string, message: string)
    ensures RenderAll([Init, Touch(touched), Add("."), Commit(message)])
         == ["git init", "touch \"" + touched + "\"", "git add .", "git commit -m " + message]
  {
    RenderedAs([Init, Touch(touched), Add("."), Commit(message)],
               ["git init", "touch \"" + touched + "\"", "git add .", "git commit -m " + message]);
  }

  /** The joined command of a four-step listing without a remote. */
  lemma LocalCommand(o: Options, isGitUrl: string -> bool, touched: string, message: string,
                     touchText: string, commitText: string)
    requires Consistent(o)
    requires Steps(o, true, isGitUrl) == [Init, Touch(touched), Add("."), Commit(message)]
    requires touchText == "touch \"" + touched + "\"" && commitText == "git commit -m " + message
    ensures CreateArgs(o, true, isGitUrl) == "git init" + " && " + touchText + " && " + "git add ." + " && " + commitText
  {
    LocalSegments(touched, message);
    CreateArgsOf(o, isGitUrl, [Init, Touch(touched), Add("."), Commit(message)],
                 ["git init", touchText, "git add .", commitText]);
    Join4("git init", touchText, "git add .", commitText, Separator);
  }

  /** The touch and commit texts of the three scenarios, as rendered. */
  lemma TouchTexts()
    ensures "touch \".gitkeep\"" == "touch \"" + ".gitkeep" + "\""
    ensures "touch \"foo\"" == "touch \"" + "foo" + "\""
  {
  }

  lemma CommitTexts()
    ensures "git commit -m \"first commit\"" == "git commit -m " + "\"first commit\""
    ensures "git commit -m \"foo\"" == "git commit -m " + "\"foo\""
  {
  }

  /** `createArgs({cwd})`: touch `.gitkeep`, stage everything, commit "first commit". */
  lemma DefaultCommand(isGitUrl: string -> bool)
    ensures CreateArgs(NoOptions.(cwd := Some(Fixture)), true, isGitUrl)
         == "git init" + " && " + "touch \".gitkeep\"" + " && " + "git add ." + " && " + "git commit -m \"first commit\""
  {
    var o := NoOptions.(cwd := Some(Fixture));
    DefaultSteps(isGitUrl);
    TouchTexts();
    CommitTexts();
    LocalCommand(o, isGitUrl, ".gitkeep", "\"first commit\"", "touch \".gitkeep\"", "git commit -m \"first commit\"");
  }

  /** `createArgs({file: {path: 'foo'}, cwd})`: the supplied file object replaces
      the default wholesale, so `foo` is touched and nothing is echoed. */
  lemma CustomFileCommand(isGitUrl: string -> bool)
    ensures CreateArgs(NoOptions.(cwd := Some(Fixture), file := Some(Seed("foo", None))), true, isGitUrl)
         == "git init" + " && " + "touch \"foo\"" + " && " + "git add ." + " && " + "git commit -m \"first commit\""
  {
    var o := NoOptions.(cwd := Some(Fixture), file := Some(Seed("foo", None)));
    CustomFileSteps(isGitUrl);
    TouchTexts();
    CommitTexts();
    LocalCommand(o, isGitUrl, "foo", "\"first commit\"", "touch \"foo\"", "git commit -m \"first commit\"");
  }

  /** `createArgs({message: 'foo', cwd})`: the message is quoted. */
  lemma CustomMessageCommand(isGitUrl: string -> bool)
    ensures CreateArgs(NoOptions.(cwd := Some(Fixture), message := Some("foo")), true, isGitUrl)
         == "git init" + " && " + "touch \".gitkeep\"" + " && " + "git add ." + " && " + "git commit -m \"foo\""
  {
    var o := NoOptions.(cwd := Some(Fixture), message := Some("foo"));
    CustomMessageSteps(isGitUrl);
    TouchTexts();
    CommitTexts();
    LocalCommand(o, isGitUrl, ".gitkeep", "\"foo\"", "touch \".gitkeep\"", "git commit -m \"foo\"");
  }

  const RemoteSegment: string := "git remote add origin " + GfcUrl
  const PushSegment: string := Command.PushCommand

  /** The steps of the two remote scenarios. */
  lemma RemoteScenarioSteps(isGitUrl: string -> bool, push: bool)
    requires isGitUrl(GfcUrl)
    ensures var o := NoOptions.(cwd := Some(Fixture), remote := Some(GfcUrl), push := if push then Some(true) else None);
      && (!push ==> Steps(o, true, isGitUrl) == [Init, Touch(".gitkeep"), Add("."), Commit("\"first commit\""), AddRemote(GfcUrl)])
      && (push ==> Steps(o, true, isGitUrl) == [Init, Touch(".gitkeep"), Add("."), Commit("\"first commit\""), AddRemote(GfcUrl), Push])
  {
    var o := NoOptions.(cwd := Some(Fixture), remote := Some(GfcUrl), push := if push then Some(true) else None);
    assert Normalize(o).remote == Some(GfcUrl);
    assert MessageOf(Normalize(o)) == "first commit";
    var base := [Init, Touch(".gitkeep"), Add("."), Commit("\"first commit\"")];
    CommandOf(o, isGitUrl, ".gitkeep", Some(""), "\"first commit\"", [AddRemote(GfcUrl)] + (if push then [Push] else []));
    assert base + [AddRemote(GfcUrl)] + [] == base + [AddRemote(GfcUrl)];
  }

  /** The rendered commands of the two remote scenarios. */
  lemma RemoteScenarioSegments()
    ensures RenderAll([Init, Touch(".gitkeep"), Add("."), Commit("\"first commit\""), AddRemote(GfcUrl)])
         == ["git init", "touch \".gitkeep\"", "git add .", "git commit -m \"first commit\"", RemoteSegment]
    ensures RenderAll([Init, Touch(".gitkeep"), Add("."), Commit("\"first commit\""), AddRemote(GfcUrl), Push])
         == ["git init", "touch \".gitkeep\"", "git add .", "git commit -m \"first commit\"", RemoteSegment, PushSegment]
  {
    RenderedAs([Init, Touch(".gitkeep"), Add("."), Commit("\"first commit\""), AddRemote(GfcUrl)],
               ["git init", "touch \".gitkeep\"", "git add .", "git commit -m \"first commit\"", RemoteSegment]);
    RenderedAs([Init, Touch(".gitkeep"), Add("."), Commit("\"first commit\""), AddRemote(GfcUrl), Push],
               ["git init", "touch \".gitkeep\"", "git add .", "git commit -m \"first commit\"", RemoteSegment, PushSegment]);
  }

  /** `createArgs({remote, cwd})`: the remote is registered after the commit, with no push. */
  lemma RemoteCommand(isGitUrl: string -> bool)
    requires isGitUrl(GfcUrl)
    ensures CreateArgs(NoOptions.(cwd := Some(Fixture), remote := Some(GfcUrl)), true, isGitUrl)
         == "git init" + " && " + "touch \".gitkeep\"" + " && " + "git add ." + " && " + "git commit -m \"first commit\""
            + " && " + ("git remote add origin " + GfcUrl)
  {
    var o := NoOptions.(cwd := Some(Fixture), remote := Some(GfcUrl));
    var a, b, c, d := "git init", "touch \".gitkeep\"", "git add .", "git commit -m \"first commit\"";
    var steps := [Init, Touch(".gitkeep"), Add("."), Commit("\"first commit\""), AddRemote(GfcUrl)];
    RemoteScenarioSteps(isGitUrl, false);
    RemoteScenarioSegments();
    CreateArgsOf(o, isGitUrl, steps, [a, b, c, d, RemoteSegment]);
    Join5(a, b, c, d, RemoteSegment, Separator);
  }

  /** `createArgs({remote, push: true, cwd})`: the forced push comes last. */
  lemma PushCommand(isGitUrl: string -> bool)
    requires isGitUrl(GfcUrl)
    ensures CreateArgs(NoOptions.(cwd := Some(Fixture), remote := Some(GfcUrl), push := Some(true)), true, isGitUrl)
         == "git init" + " && " + "touch \".gitkeep\"" + " && " + "git add ." + " && " + "git commit -m \"first commit\""
            + " && " + ("git remote add origin " + GfcUrl) + " && " + "git push --force origin master:master"
  {
    var o := NoOptions.(cwd := Some(Fixture), remote := Some(GfcUrl), push := Some(true));
    var a, b, c, d := "git init", "touch \".gitkeep\"", "git add .", "git commit -m \"first commit\"";
    var steps := [Init, Touch(".gitkeep"), Add("."), Commit("\"first commit\""), AddRemote(GfcUrl), Push];
    RemoteScenarioSteps(isGitUrl, true);
    RemoteScenarioSegments();
    CreateArgsOf(o, isGitUrl, steps, [a, b, c, d, RemoteSegment, PushSegment]);
    Join6(a, b, c, d, RemoteSegment, PushSegment, Separator);
  }
}
