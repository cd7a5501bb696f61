/** The installer's walk over a directory, which does not descend into excluded directories. */
module SyncWalk {
  import opened Sync

  datatype Node = Leaf(content: string) | Folder(entries: seq<Entry>)
  datatype Entry = Entry(name: string, node: Node)

  /** The entry leads to a file with this content along the path. */
  predicate Via(e: Entry, path: Path, content: string)
    decreases e
  {
    && path != [] && e.name == path[0]
    && match e.node
       case Leaf(c) => |path| == 1 && c == content
       case Folder(entries) => |path| > 1 && exists i :: 0 <= i < |entries| && Via(entries[i], path[1..], content)
  }

  predicate Leads(entries: seq<Entry>, path: Path, content: string) {
    exists i :: 0 <= i < |entries| && Via(entries[i], path, content)
  }

  /** Below its first n components, neither the path nor a directory on it is excluded. */
  predicate Clear(glob: Glob, path: Path, n: nat) {
    forall k :: n < k <= |path| ==> !Excluded(glob, path[..k])
  }

  predicate Found(glob: Glob, e: Entry, prefix: Path, path: Path, content: string) {
    prefix <= path && Via(e, path[|prefix|..], content) && Clear(glob, path, |prefix|)
  }

  predicate FoundIn(glob: Glob, entries: seq<Entry>, prefix: Path, path: Path, content: string) {
    exists i :: 0 <= i < |entries| && Found(glob, entries[i], prefix, path, content)
  }

  /** The files below a directory that the walk yields. */
  method IterFiles(glob: Glob, entries: seq<Entry>, prefix: Path) returns (out: seq<(Path, string)>)
    ensures forall p, c :: (p, c) in out <==> FoundIn(glob, entries, prefix, p, c)
    decreases entries
  {
    hide Excluded, Found;
    out := [];
    for i := 0 to |entries|
      invariant forall p, c :: (p, c) in out <==> FoundIn(glob, entries[..i], prefix, p, c)
    {
      ghost var before := out;
      var e := entries[i];
      var here := prefix + [e.name];
      ghost var more: seq<(Path, string)> := [];
      if !Excluded(glob, here) {
        match e.node {
          case Leaf(content) =>
            more := [(here, content)];
            out := out + [(here, content)];
          case Folder(inner) =>
            var below := IterFiles(glob, inner, here);
            more := below;
            out := out + below;
        }
      }
      assert out == before + more;
      EntryYields(glob, e, prefix, more);
      forall p, c
        ensures (p, c) in out <==> FoundIn(glob, entries[..i + 1], prefix, p, c)
      {
        OneMore(glob, entries, i, prefix, p, c);
      }
    }
    assert entries[..|entries|] == entries;
  }

  lemma OneMore(glob: Glob, entries: seq<Entry>, i: nat, prefix: Path, path: Path, content: string)
    requires i < |entries|
    ensures FoundIn(glob, entries[..i + 1], prefix, path, content)
       <==> FoundIn(glob, entries[..i], prefix, path, content) || Found(glob, entries[i], prefix, path, content)
  {
  }

  /** What one entry yields, given what its directory yields. */
  lemma EntryYields(glob: Glob, e: Entry, prefix: Path, more: seq<(Path, string)>)
    requires var here := prefix + [e.name];
             if Excluded(glob, here) then more == []
             else match e.node
                  case Leaf(content) => more == [(here, content)]
                  case Folder(inner) => forall p, c :: (p, c) in more <==> FoundIn(glob, inner, here, p, c)
    ensures forall p, c :: (p, c) in more <==> Found(glob, e, prefix, p, c)
  {
    hide Excluded;
    var here := prefix + [e.name];
    forall p: Path, c: string
      ensures (p, c) in more <==> Found(glob, e, prefix, p, c)
    {
      if prefix <= p && |p| > |prefix| && p[|prefix|] == e.name {
        assert p[..|here|] == here;
        if !Excluded(glob, here) {
          match e.node
          case Leaf(content) => LeafYields(glob, e, prefix, p, c);
          case Folder(inner) => FolderYields(glob, e, prefix, p, c);
        }
      } else {
        assert p != here && !(here <= p);
      }
    }
  }

  lemma LeafYields(glob: Glob, e: Entry, prefix: Path, p: Path, c: string)
    requires e.node.Leaf? && !Excluded(glob, prefix + [e.name]) && prefix + [e.name] <= p
    ensures Found(glob, e, prefix, p, c) <==> p == prefix + [e.name] && c == e.node.content
  {
    hide Excluded;
    var here := prefix + [e.name];
    assert prefix == p[..|prefix|] by {
      assert p[..|here|][..|prefix|] == prefix;
    }
    if p == here {
      assert p[|prefix|..] == [e.name];
      assert p[..|p|] == p;
    }
  }

  lemma FolderYields(glob: Glob, e: Entry, prefix: Path, p: Path, c: string)
    requires e.node.Folder? && !Excluded(glob, prefix + [e.name]) && prefix + [e.name] <= p
    ensures Found(glob, e, prefix, p, c) <==> FoundIn(glob, e.node.entries, prefix + [e.name], p, c)
  {
    hide Excluded;
    var here, inner := prefix + [e.name], e.node.entries;
    assert prefix == p[..|prefix|] by {
      assert p[..|here|][..|prefix|] == prefix;
    }
    assert p[|prefix|..][1..] == p[|here|..] && p[|prefix|..][0] == p[|prefix|] == here[|prefix|];
    assert p[..|here|] == here;
    assert Clear(glob, p, |prefix|) <==> Clear(glob, p, |here|);
    if Found(glob, e, prefix, p, c) {
      var i :| 0 <= i < |inner| && Via(inner[i], p[|here|..], c);
      assert Found(glob, inner[i], here, p, c);
    }
    if FoundIn(glob, inner, here, p, c) {
      var i :| 0 <= i < |inner| && Found(glob, inner[i], here, p, c);
      assert Via(inner[i], p[|here|..], c);
    }
  }

  /** From the root, the walk yields exactly the visible files: those that no pattern excludes, below no
      directory that a pattern excludes. */
  lemma WalkYieldsVisible(glob: Glob, entries: seq<Entry>, path: Path, content: string)
    ensures FoundIn(glob, entries, [], path, content) <==> Leads(entries, path, content) && Visible(glob, path)
  {
    hide Excluded;
    assert path[0..] == path && path[..|path|] == path;
    assert Leads(entries, path, content) ==> path != [];
    assert path != [] ==> (Clear(glob, path, 0) <==> Visible(glob, path));
    if Leads(entries, path, content) && Visible(glob, path) {
      var i :| 0 <= i < |entries| && Via(entries[i], path, content);
      assert Found(glob, entries[i], [], path, content);
    }
  }
}
