/** The filter handed to the directory-emptiness check (index.js:107-113):
    an entry counts towards "non-empty" unless it is operating-system junk. */
module Junk {
  import opened Strings

  const ThumbsDb: string := "Thumbs.db"
  const DsStore: string := ".DS_Store"

  /** The path matches `/(Thumbs\.db|\.DS_Store)$/i`: it ends, ignoring ASCII case, in one of the junk names. */
  predicate IsJunk(path: string) {
    EndsWithIgnoringCase(path, ThumbsDb) || EndsWithIgnoringCase(path, DsStore)
  }

  /** `garbage(filepath)`: true for entries that make a directory non-empty. */
  function Garbage(path: string): (keep: bool)
    ensures keep <==> !IsJunk(path)
    ensures |path| < 9 ==> keep
  {
    !IsJunk(path)
  }

  /** Whether a path ends in a given name is unaffected by re-casing the path. */
  lemma SuffixIgnoresCase(p: string, q: string, name: string)
    requires EqualIgnoringCase(p, q)
    ensures EndsWithIgnoringCase(p, name) <==> EndsWithIgnoringCase(q, name)
  {
    if |name| <= |p| {
      var k := |p| - |name|;
      assert forall i :: 0 <= i < |name| ==> p[k..][i] == p[k + i] && q[k..][i] == q[k + i];
    }
  }

  /** Re-casing a path (changing the case of its ASCII letters) never changes the verdict. */
  lemma GarbageIgnoresCase(p: string, q: string)
    requires EqualIgnoringCase(p, q)
    ensures Garbage(p) == Garbage(q)
  {
    SuffixIgnoresCase(p, q, ThumbsDb);
    SuffixIgnoresCase(p, q, DsStore);
  }

  /** A junk name is junk inside any directory: prefixing a path never rescues it. */
  lemma JunkInAnyDirectory(dir: string, name: string)
    requires !Garbage(name)
    ensures !Garbage(dir + name)
  {
    var p := dir + name;
    if EndsWithIgnoringCase(name, ThumbsDb) {
      assert p[|p| - |ThumbsDb|..] == name[|name| - |ThumbsDb|..];
    } else {
      assert p[|p| - |DsStore|..] == name[|name| - |DsStore|..];
    }
  }

  /** Concrete verdicts: the match is case-insensitive, anchored at the end, and has no other exceptions. */
  lemma GarbageExamples()
    ensures !Garbage("photos/THUMBS.DB")
    ensures !Garbage("sub/.ds_store")
    ensures Garbage(".DS_Store.bak")
    ensures Garbage("Thumbs.db/readme.md")
    ensures Garbage(".gitkeep")
  {
    JunkExamples();
    KeptExamples();
  }

  lemma JunkExamples()
    ensures !Garbage("photos/THUMBS.DB")
    ensures !Garbage("sub/.ds_store")
  {
    ThumbsJunk();
    DsStoreJunk();
  }

  lemma ThumbsJunk()
    ensures !Garbage("photos/THUMBS.DB")
  {
    var a := "photos/THUMBS.DB";
    assert a[|a| - 9..] == "THUMBS.DB";
  }

  lemma DsStoreJunk()
    ensures !Garbage("sub/.ds_store")
  {
    var b := "sub/.ds_store";
    assert b[|b| - 9..] == ".ds_store";
  }

  lemma KeptExamples()
    ensures Garbage(".DS_Store.bak")
    ensures Garbage("Thumbs.db/readme.md")
  {
    var c := ".DS_Store.bak";
    assert c[|c| - 9..][0] == 'S';
    var d := "Thumbs.db/readme.md";
    assert d[|d| - 9..][0] == 'r';
  }
}
