/** The installer: a staged tree from base and overlay, a plan against the installed tree and its
    receipt, and the swap that carries over what the plan keeps. */
module Sync {
  import opened Options

  /** The components of a relative path, outermost first. */
  type Path = seq<string>

  type Tree = map<Path, string>

  datatype Result<T> = Ok(value: T) | Err(error: Error)
  datatype Error = PathEscape | MissingSource | DriftRefused(drift: set<Path>)

  /** Contents stand for their own hashes. */
  datatype Digest = Digest(content: string)

  datatype Origin = Base | Overlay
  datatype Staged = Staged(origin: Origin, content: string)

  /** What a mapping finds at its place in the checkout. */
  datatype Source = Absent | File(content: string) | Dir(files: Tree)
  datatype Mapping = Mapping(source: Source, to: Path)

  /** What the last sync recorded: the hash of each managed file, if the entry has one. */
  type Receipt = map<Path, Option<Digest>>

  /** Whether some exclude pattern matches the text. */
  type Glob = string -> bool

  datatype Action = Add | Update | Overlaid | Same

  datatype Plan = Plan(
    staged: map<Path, Staged>,
    actions: map<Path, Action>,
    deletes: set<Path>,
    unmanaged: set<Path>,
    preserved: set<Path>,
    drift: set<Path>)

  function Join(p: Path): string {
    if p == [] then "" else if |p| == 1 then p[0] else p[0] + "/" + Join(p[1..])
  }

  predicate IsControl(p: Path) {
    p != [] && ".sync" <= p[0]
  }

  /** The whole path or one of its components matches. */
  predicate Excluded(glob: Glob, p: Path) {
    glob(Join(p)) || exists part :: part in p && glob(part)
  }

  /** The managed scan does not descend into excluded directories. */
  predicate Pruned(glob: Glob, p: Path) {
    exists k :: 0 < k < |p| && Excluded(glob, p[..k])
  }

  predicate Visible(glob: Glob, p: Path) {
    !Pruned(glob, p) && !Excluded(glob, p)
  }

  predicate Managed(glob: Glob, p: Path) {
    Visible(glob, p) && !IsControl(p)
  }

  // The staged tree

  /** The file one mapping puts at a path, if any. */
  function Supplied(glob: Glob, m: Mapping, p: Path): Option<string> {
    match m.source
    case Absent => None
    case File(content) => if p == m.to then Some(content) else None
    case Dir(files) =>
      if m.to <= p && p[|m.to|..] in files && Visible(glob, p[|m.to|..]) && !IsControl(p) then Some(files[p[|m.to|..]])
        else None
  }

  /** The base tree: later mappings overwrite earlier ones. */
  function BaseAt(glob: Glob, mappings: seq<Mapping>, p: Path): Option<string> {
    if mappings == [] then None
    else
      var last := Supplied(glob, mappings[|mappings| - 1], p);
      if last.Some? then last else BaseAt(glob, mappings[..|mappings| - 1], p)
  }

  /** The staged tree: the overlay replaces or adds. */
  function Wanted(glob: Glob, mappings: seq<Mapping>, overlay: Tree, p: Path): Option<Staged> {
    if p in overlay && Managed(glob, p) then Some(Staged(Overlay, overlay[p]))
    else
      match BaseAt(glob, mappings, p)
      case Some(content) => Some(Staged(Base, content))
      case None => None
  }

  function Trouble(m: Mapping): Option<Error> {
    if IsControl(m.to) then Some(PathEscape) else if m.source.Absent? then Some(MissingSource) else None
  }

  ghost predicate IsStaged(glob: Glob, mappings: seq<Mapping>, overlay: Tree, staged: map<Path, Staged>) {
    forall p :: match Wanted(glob, mappings, overlay, p)
                case Some(file) => p in staged && staged[p] == file
                case None => p !in staged
  }

  // What is staged, said of the mappings and the overlay

  /** The mapping brings this content to the path: it maps a file there, or a directory with a visible file at
      the rest of the path. Nothing below a directory is brought to a control path. */
  ghost predicate Brings(glob: Glob, m: Mapping, p: Path, content: string) {
    || (m.source == File(content) && p == m.to)
    || (m.source.Dir? && !IsControl(p)
        && exists rel :: p == m.to + rel && Visible(glob, rel) && rel in m.source.files
                         && m.source.files[rel] == content)
  }

  ghost predicate BringsAny(glob: Glob, m: Mapping, p: Path) {
    exists content :: Brings(glob, m, p, content)
  }

  /** The i-th mapping is the last that brings something to the path. */
  ghost predicate LastToBring(glob: Glob, mappings: seq<Mapping>, p: Path, content: string, i: nat) {
    && i < |mappings| && Brings(glob, mappings[i], p, content)
    && forall j :: i < j < |mappings| ==> !BringsAny(glob, mappings[j], p)
  }

  /** The staged tree, path by path: a managed overlay file is staged with its own bytes, whatever the base has
      there; anything else that is staged is what the last mapping brings there; and whatever a mapping brings
      is staged. */
  ghost predicate Overlays(glob: Glob, mappings: seq<Mapping>, overlay: Tree, staged: map<Path, Staged>) {
    && (forall p :: p in overlay && Managed(glob, p) ==> p in staged && staged[p] == Staged(Overlay, overlay[p]))
    && (forall p :: p in staged && !(p in overlay && Managed(glob, p)) ==>
          staged[p].origin == Base && exists i: nat :: LastToBring(glob, mappings, p, staged[p].content, i))
    && (forall p, i :: 0 <= i < |mappings| && BringsAny(glob, mappings[i], p) ==> p in staged)
  }

  lemma SuppliedMeans(glob: Glob, m: Mapping, p: Path, content: string)
    ensures Supplied(glob, m, p) == Some(content) <==> Brings(glob, m, p, content)
    ensures Supplied(glob, m, p).Some? <==> BringsAny(glob, m, p)
  {
    hide Visible;
    if m.source.Dir? {
      if m.to <= p {
        assert p == m.to + p[|m.to|..];
      }
      assert forall rel :: p == m.to + rel ==> m.to <= p && p[|m.to|..] == rel;
      if Supplied(glob, m, p).Some? {
        assert Brings(glob, m, p, Supplied(glob, m, p).value);
      }
    } else if m.source.File? && p == m.to {
      assert Brings(glob, m, p, m.source.content);
    }
  }

  /** Either some mapping is the last to bring this, or none brings anything. */
  ghost predicate LastOrNone(glob: Glob, mappings: seq<Mapping>, p: Path, found: Option<string>) {
    match found
    case Some(content) => exists i: nat :: LastToBring(glob, mappings, p, content, i)
    case None => forall i :: 0 <= i < |mappings| ==> !BringsAny(glob, mappings[i], p)
  }

  lemma OneMoreMapping(glob: Glob, mappings: seq<Mapping>, p: Path, found: Option<string>)
    requires mappings != [] && LastOrNone(glob, mappings[..|mappings| - 1], p, found)
    ensures var last := Supplied(glob, mappings[|mappings| - 1], p);
            LastOrNone(glob, mappings, p, if last.Some? then last else found)
  {
    hide Brings, BringsAny, Supplied;
    var n := |mappings| - 1;
    var init, last := mappings[..n], Supplied(glob, mappings[n], p);
    SuppliedMeans(glob, mappings[n], p, if last.Some? then last.value else "");
    assert forall j :: 0 <= j < n ==> init[j] == mappings[j];
    if last.Some? {
      assert LastToBring(glob, mappings, p, last.value, n);
    } else if found.Some? {
      var i: nat :| LastToBring(glob, init, p, found.value, i);
      forall j | i < j < |mappings|
        ensures !BringsAny(glob, mappings[j], p)
      {
        assert j < n ==> !BringsAny(glob, init[j], p);
      }
      assert LastToBring(glob, mappings, p, found.value, i);
    } else {
      forall j | 0 <= j < |mappings|
        ensures !BringsAny(glob, mappings[j], p)
      {
        assert j < n ==> !BringsAny(glob, init[j], p);
      }
    }
  }

  lemma {:induction false} BaseMeans(glob: Glob, mappings: seq<Mapping>, p: Path)
    ensures LastOrNone(glob, mappings, p, BaseAt(glob, mappings, p))
  {
    if mappings != [] {
      hide LastOrNone, Supplied;
      BaseMeans(glob, mappings[..|mappings| - 1], p);
      OneMoreMapping(glob, mappings, p, BaseAt(glob, mappings[..|mappings| - 1], p));
    }
  }

  lemma StagedMeans(glob: Glob, mappings: seq<Mapping>, overlay: Tree, staged: map<Path, Staged>)
    requires IsStaged(glob, mappings, overlay, staged)
    ensures Overlays(glob, mappings, overlay, staged)
  {
    hide Managed, BaseAt, BringsAny, LastToBring;
    forall p
      ensures LastOrNone(glob, mappings, p, BaseAt(glob, mappings, p))
    {
      BaseMeans(glob, mappings, p);
    }
  }

  /** Base, then overlay, later entries overwriting earlier ones; the first bad mapping stops it. */
  method BuildStagedTree(glob: Glob, mappings: seq<Mapping>, overlay: Tree) returns (r: Result<map<Path, Staged>>)
    ensures r.Ok? <==> forall i :: 0 <= i < |mappings| ==> Trouble(mappings[i]) == None
    ensures r.Ok? <==> forall i :: 0 <= i < |mappings| ==> !IsControl(mappings[i].to) && mappings[i].source != Absent
    ensures r.Ok? ==> IsStaged(glob, mappings, overlay, r.value) && Overlays(glob, mappings, overlay, r.value)
    ensures r.Err? ==>
            exists i ::
              && 0 <= i < |mappings| && Trouble(mappings[i]) == Some(r.error)
              && forall j :: 0 <= j < i ==> Trouble(mappings[j]) == None
  {
    var staged: map<Path, Staged> := map[];
    for i := 0 to |mappings|
      invariant forall j :: 0 <= j < i ==> Trouble(mappings[j]) == None
      invariant IsStaged(glob, mappings[..i], map[], staged)
    {
      var m := mappings[i];
      if Trouble(m).Some? {
        return Err(Trouble(m).value);
      }
      ghost var before := staged;
      if m.source.File? {
        staged := staged[m.to := Staged(Base, m.source.content)];
      } else {
        staged := CopyTree(glob, m, staged);
      }
      MappingAdds(glob, mappings, i, before, staged);
    }
    assert mappings[..|mappings|] == mappings;
    staged := CopyOverlay(glob, mappings, overlay, staged);
    StagedMeans(glob, mappings, overlay, staged);
    return Ok(staged);
  }

  lemma MappingAdds(glob: Glob, mappings: seq<Mapping>, i: nat, before: map<Path, Staged>, staged: map<Path, Staged>)
    requires i < |mappings| && IsStaged(glob, mappings[..i], map[], before)
    requires forall p :: match Supplied(glob, mappings[i], p)
                         case Some(content) => p in staged && staged[p] == Staged(Base, content)
                         case None => (p in staged <==> p in before) && (p in before ==> staged[p] == before[p])
    ensures IsStaged(glob, mappings[..i + 1], map[], staged)
  {
    hide Supplied;
    assert mappings[..i + 1][..i] == mappings[..i];
    forall p
      ensures match Wanted(glob, mappings[..i + 1], map[], p)
              case Some(file) => p in staged && staged[p] == file
              case None => p !in staged
    {
      assert Wanted(glob, mappings[..i], map[], p).Some? <==> p in before;
    }
  }

  /** A mapped directory: its visible files, one by one. */
  method CopyTree(glob: Glob, m: Mapping, before: map<Path, Staged>) returns (staged: map<Path, Staged>)
    requires m.source.Dir?
    ensures forall p :: match Supplied(glob, m, p)
                        case Some(content) => p in staged && staged[p] == Staged(Base, content)
                        case None => (p in staged <==> p in before) && (p in before ==> staged[p] == before[p])
  {
    hide Visible;
    var files := m.source.files;
    staged := before;
    var rest := files.Keys;
    while rest != {}
      invariant rest <= files.Keys
      invariant forall p :: if Supplied(glob, m, p).Some? && p[|m.to|..] !in rest
                            then p in staged && staged[p] == Staged(Base, Supplied(glob, m, p).value)
                            else (p in staged <==> p in before) && (p in before ==> staged[p] == before[p])
      decreases rest
    {
      var rel :| rel in rest;
      var dest := m.to + rel;
      assert dest[|m.to|..] == rel && dest[..|m.to|] == m.to;
      assert forall p :: m.to <= p && p[|m.to|..] == rel ==> p == dest;
      if Visible(glob, rel) && !IsControl(dest) {
        staged := staged[dest := Staged(Base, files[rel])];
      }
      rest := rest - {rel};
    }
  }

  /** The overlay, file by file, on top of the base. */
  method CopyOverlay(glob: Glob, ghost mappings: seq<Mapping>, overlay: Tree, before: map<Path, Staged>)
    returns (staged: map<Path, Staged>)
    requires IsStaged(glob, mappings, map[], before)
    ensures IsStaged(glob, mappings, overlay, staged)
  {
    hide Managed, BaseAt;
    staged := before;
    var rest := overlay.Keys;
    while rest != {}
      invariant rest <= overlay.Keys
      invariant forall p :: if p in overlay && Managed(glob, p) && p !in rest
                            then p in staged && staged[p] == Staged(Overlay, overlay[p])
                            else (p in staged <==> p in before) && (p in before ==> staged[p] == before[p])
      decreases rest
    {
      var rel :| rel in rest;
      if Managed(glob, rel) {
        staged := staged[rel := Staged(Overlay, overlay[rel])];
      }
      rest := rest - {rel};
    }
    forall p
      ensures match Wanted(glob, mappings, overlay, p)
              case Some(file) => p in staged && staged[p] == file
              case None => p !in staged
    {
      assert Wanted(glob, mappings, map[], p).Some? <==> p in before;
    }
  }

  /** Nothing is staged at a control path. */
  lemma {:induction false} StagedIsNoControl(glob: Glob, mappings: seq<Mapping>, overlay: Tree, staged: map<Path,
                                             Staged>)
    requires IsStaged(glob, mappings, overlay, staged) && forall i :: 0 <= i < |mappings| ==>
             Trouble(mappings[i]) == None
    ensures forall p :: p in staged ==> !IsControl(p)
  {
    forall p | p in staged
      ensures !IsControl(p)
    {
      assert Wanted(glob, mappings, overlay, p).Some?;
      if BaseAt(glob, mappings, p).Some? {
        BaseIsNoControl(glob, mappings, p);
      }
    }
  }

  lemma {:induction false} BaseIsNoControl(glob: Glob, mappings: seq<Mapping>, p: Path)
    requires BaseAt(glob, mappings, p).Some? && forall i :: 0 <= i < |mappings| ==> Trouble(mappings[i]) == None
    ensures !IsControl(p)
  {
    assert Trouble(mappings[|mappings| - 1]) == None;
    if Supplied(glob, mappings[|mappings| - 1], p).None? {
      BaseIsNoControl(glob, mappings[..|mappings| - 1], p);
    }
  }

  // The plan

  function Scanned(glob: Glob, files: Tree): Tree {
    map p | p in files && Managed(glob, p) :: files[p]
  }

  function ActionAt(staged: map<Path, Staged>, scanned: Tree, p: Path): Action
    requires p in staged
  {
    if staged[p].origin == Overlay then Overlaid
    else if p !in scanned then Add
    else if scanned[p] != staged[p].content then Update
    else Same
  }

  function PlanFor(glob: Glob, staged: map<Path, Staged>, files: Tree, receipt: Receipt): Plan {
    var scanned := Scanned(glob, files);
    Plan(
      staged,
      map p | p in staged :: ActionAt(staged, scanned, p),
      set p | p in scanned && p !in staged && p in receipt,
      set p | p in scanned && p !in staged && p !in receipt,
      set p | p in files && !IsControl(p) && Excluded(glob, p) && p !in staged,
      set p | p in receipt && p in scanned && receipt[p] != Some(Digest(scanned[p])))
  }

  /** The tree after the swap: what was staged, and what the plan carries over. */
  function Installed(plan: Plan, files: Tree): Tree {
    map p | p in plan.staged.Keys + (files.Keys * (plan.unmanaged + plan.preserved)) ::
      if p in plan.staged && p !in files.Keys * (plan.unmanaged + plan.preserved) then plan.staged[p].content
        else files[p]
  }

  lemma InstalledIs(plan: Plan, files: Tree, tree: Tree)
    requires tree.Keys == plan.staged.Keys + (files.Keys * (plan.unmanaged + plan.preserved))
    requires forall p :: p in tree ==> tree[p] == if p in files && p in plan.unmanaged + plan.preserved then files[p]
             else plan.staged[p].content
    ensures tree == Installed(plan, files)
  {
  }

  /** The new receipt covers exactly the staged files. */
  function FreshReceipt(staged: map<Path, Staged>): Receipt {
    map p | p in staged :: Some(Digest(staged[p].content))
  }

  class Target {
    const glob: Glob
    const mappings: seq<Mapping>
    const overlay: Tree
    /** The installed tree and the receipt in it. */
    var files: Tree
    var receipt: Receipt

    constructor (glob: Glob, mappings: seq<Mapping>, overlay: Tree, files: Tree, receipt: Receipt)
      ensures this.glob == glob && this.mappings == mappings && this.overlay == overlay
      ensures this.files == files && this.receipt == receipt
    {
      this.glob, this.mappings, this.overlay := glob, mappings, overlay;
      this.files, this.receipt := files, receipt;
    }

    method InstallHashes() returns (scanned: Tree)
      ensures scanned == Scanned(glob, files)
    {
      hide Managed;
      scanned := map[];
      var rest := files.Keys;
      while rest != {}
        invariant rest <= files.Keys
        invariant scanned.Keys == set p | p in files && Managed(glob, p) && p !in rest
        invariant forall p :: p in scanned ==> scanned[p] == files[p]
        decreases rest
      {
        var p :| p in rest;
        if Managed(glob, p) {
          scanned := scanned[p := files[p]];
        }
        rest := rest - {p};
      }
    }

    /** Files the managed scan skips because they match an exclude pattern; this scan does not prune. */
    method ExcludedFiles(staged: map<Path, Staged>) returns (preserved: set<Path>)
      ensures preserved == set p | p in files && !IsControl(p) && Excluded(glob, p) && p !in staged
    {
      hide Excluded, IsControl;
      preserved := {};
      var rest := files.Keys;
      while rest != {}
        invariant rest <= files.Keys
        invariant preserved == set p | p in files && !IsControl(p) && Excluded(glob, p) && p !in staged && p !in rest
        decreases rest
      {
        var p :| p in rest;
        if !IsControl(p) && Excluded(glob, p) && p !in staged {
          preserved := preserved + {p};
        }
        rest := rest - {p};
      }
    }

    method Actions(staged: map<Path, Staged>, scanned: Tree) returns (actions: map<Path, Action>)
      ensures actions == map p | p in staged :: ActionAt(staged, scanned, p)
    {
      actions := map[];
      var rest := staged.Keys;
      while rest != {}
        invariant rest <= staged.Keys
        invariant actions.Keys == staged.Keys - rest
        invariant forall p :: p in actions ==> actions[p] == ActionAt(staged, scanned, p)
        decreases rest
      {
        var p :| p in rest;
        var action;
        if staged[p].origin == Overlay {
          action := Overlaid;
        } else if p !in scanned {
          action := Add;
        } else if scanned[p] != staged[p].content {
          action := Update;
        } else {
          action := Same;
        }
        actions := actions[p := action];
        rest := rest - {p};
      }
    }

    /** Installed files that are not staged: managed before, so to be deleted, or never synced, so kept. */
    method Leftovers(staged: map<Path, Staged>, scanned: Tree) returns (deletes: set<Path>, unmanaged: set<Path>)
      ensures deletes == set p | p in scanned && p !in staged && p in receipt
      ensures unmanaged == set p | p in scanned && p !in staged && p !in receipt
    {
      deletes, unmanaged := {}, {};
      var rest := scanned.Keys;
      while rest != {}
        invariant rest <= scanned.Keys
        invariant deletes == set p | p in scanned && p !in staged && p in receipt && p !in rest
        invariant unmanaged == set p | p in scanned && p !in staged && p !in receipt && p !in rest
        decreases rest
      {
        var p :| p in rest;
        if p !in staged {
          if p in receipt {
            deletes := deletes + {p};
          } else {
            unmanaged := unmanaged + {p};
          }
        }
        rest := rest - {p};
      }
    }

    method Drift(scanned: Tree) returns (drift: set<Path>)
      ensures drift == set p | p in receipt && p in scanned && receipt[p] != Some(Digest(scanned[p]))
    {
      drift := {};
      var rest := receipt.Keys;
      while rest != {}
        invariant rest <= receipt.Keys
        invariant drift == set p | p in receipt && p in scanned && receipt[p] != Some(Digest(scanned[p])) && p !in rest
        decreases rest
      {
        var p :| p in rest;
        if p in scanned && receipt[p] != Some(Digest(scanned[p])) {
          drift := drift + {p};
        }
        rest := rest - {p};
      }
    }

    method MakePlan() returns (r: Result<Plan>)
      ensures r.Ok? ==>
              IsStaged(glob, mappings, overlay, r.value.staged)
              && r.value == PlanFor(glob, r.value.staged, files, receipt)
      ensures r.Ok? <==> forall i :: 0 <= i < |mappings| ==> Trouble(mappings[i]) == None
      ensures r.Err? ==> !r.error.DriftRefused?
    {
      hide IsStaged, Scanned;
      var built := BuildStagedTree(glob, mappings, overlay);
      if built.Err? {
        return Err(built.error);
      }
      var staged := built.value;
      var scanned := InstallHashes();
      var drift := Drift(scanned);
      var actions := Actions(staged, scanned);
      var deletes, unmanaged := Leftovers(staged, scanned);
      var preserved := ExcludedFiles(staged);
      return Ok(Plan(staged, actions, deletes, unmanaged, preserved, drift));
    }

    /** Carry the kept files into the staged tree, write the receipt, swap. */
    method ApplyPlan(plan: Plan)
      modifies this
      ensures files == Installed(plan, old(files)) && receipt == FreshReceipt(plan.staged)
    {
      var tree := map p | p in plan.staged :: plan.staged[p].content;
      var carried := plan.unmanaged + plan.preserved;
      var rest := carried;
      hide Installed;
      while rest != {}
        invariant rest <= carried && files == old(files)
        invariant tree.Keys == plan.staged.Keys + (files.Keys * (carried - rest))
        invariant forall p :: p in tree ==> tree[p] == if p in files && p in carried - rest then files[p]
                  else plan.staged[p].content
        decreases rest
      {
        var p :| p in rest;
        if p in files {
          tree := tree[p := files[p]];
        }
        rest := rest - {p};
      }
      InstalledIs(plan, files, tree);
      receipt := map p | p in plan.staged :: Some(Digest(plan.staged[p].content));
      files := tree;
    }

    /** This is the drift of the tree that would have been staged, and there is some. */
    ghost predicate RefusesFor(staged: map<Path, Staged>, files: Tree, receipt: Receipt, drift: set<Path>)
    {
      IsStaged(glob, mappings, overlay, staged) && PlanFor(glob, staged, files, receipt).drift == drift != {}
    }

    /** One run: refused on drift unless forced, and then nothing changes. */
    method Run(dryRun: bool, force: bool) returns (r: Result<Plan>)
      modifies this
      ensures r.Ok? ==>
              IsStaged(glob, mappings, overlay, r.value.staged)
              && r.value == PlanFor(glob, r.value.staged, old(files), old(receipt))
      ensures r.Ok? ==> (r.value.drift == {} || force)
      ensures r.Ok? ==> forall i :: 0 <= i < |mappings| ==> Trouble(mappings[i]) == None
      ensures r.Err? && !r.error.DriftRefused? ==> exists i :: 0 <= i < |mappings| && Trouble(mappings[i]) != None
      ensures r.Err? && r.error.DriftRefused?
              ==> !force && exists staged :: RefusesFor(staged, old(files), old(receipt), r.error.drift)
      ensures if r.Ok? && !dryRun
              then files == Installed(r.value, old(files)) && receipt == FreshReceipt(r.value.staged)
              else files == old(files) && receipt == old(receipt)
    {
      hide IsStaged, PlanFor, Installed, FreshReceipt;
      r := MakePlan();
      if r.Err? {
        return;
      }
      var plan := r.value;
      if plan.drift != {} && !force {
        assert RefusesFor(plan.staged, files, receipt, plan.drift);
        return Err(DriftRefused(plan.drift));
      }
      if !dryRun {
        ApplyPlan(plan);
      }
    }

    /** The target is as a sync with its present checkout, overlay and patterns has left it. */
    ghost predicate Synced()
      reads this
    {
      && (forall i :: 0 <= i < |mappings| ==> Trouble(mappings[i]) == None)
      && exists staged, before, recorded :: LeftBy(staged, before, recorded)
    }

    ghost predicate LeftBy(staged: map<Path, Staged>, before: Tree, recorded: Receipt)
      reads this
    {
      && IsStaged(glob, mappings, overlay, staged)
      && files == Installed(PlanFor(glob, staged, before, recorded), before)
      && receipt == FreshReceipt(staged)
    }

    /** A first sync that goes through leaves the target synced. */
    method RunFirst(force: bool) returns (r: Result<Plan>)
      modifies this
      ensures r.Ok? ==> Synced()
      ensures r.Err? ==> files == old(files) && receipt == old(receipt)
    {
      hide IsStaged, PlanFor, Installed, FreshReceipt, Trouble;
      ghost var before, recorded := files, receipt;
      r := Run(false, force);
      assert r.Ok? ==> LeftBy(r.value.staged, before, recorded);
    }

    /** Syncing again needs no force, deletes nothing, and leaves the tree and the receipt as they are. */
    method RunAgain() returns (r: Result<Plan>)
      requires Synced()
      modifies this
      ensures r.Ok? && r.value.drift == {} && r.value.deletes == {}
      ensures files == old(files) && receipt == old(receipt)
    {
      hide IsStaged, PlanFor, Installed, FreshReceipt, Trouble;
      ghost var staged, before, recorded :| LeftBy(staged, before, recorded);
      StagedIsNoControl(glob, mappings, overlay, staged);
      SyncIsFixedPoint(glob, staged, before, recorded);
      forall other | IsStaged(glob, mappings, overlay, other)
        ensures other == staged
      {
        StagedOnce(glob, mappings, overlay, staged, other);
      }
      r := Run(false, false);
    }
  }

  lemma StagedOnce(glob: Glob, mappings: seq<Mapping>, overlay: Tree, a: map<Path, Staged>, b: map<Path, Staged>)
    requires IsStaged(glob, mappings, overlay, a) && IsStaged(glob, mappings, overlay, b)
    ensures a == b
  {
    hide Wanted;
    assert forall p :: p in a <==> Wanted(glob, mappings, overlay, p).Some?;
    assert forall p :: p in b <==> Wanted(glob, mappings, overlay, p).Some?;
  }

  // Conservation

  datatype Fate = Replaced | Deleted | KeptUnmanaged | KeptExcluded

  /** The class the plan puts an installed file in, if any. */
  predicate InClass(plan: Plan, p: Path, fate: Fate) {
    match fate
    case Replaced => p in plan.staged
    case Deleted => p in plan.deletes
    case KeptUnmanaged => p in plan.unmanaged
    case KeptExcluded => p in plan.preserved
  }

  /** Neither scan sees the file: it matches no pattern, but a directory above it does. */
  predicate Stranded(glob: Glob, p: Path) {
    Pruned(glob, p) && !Excluded(glob, p)
  }

  /** Every non-control installed file is in exactly one class, except a stranded file that is not
      staged: that one is in none, and is gone after the swap. */
  lemma ExactlyOneClass(glob: Glob, staged: map<Path, Staged>, files: Tree, receipt: Receipt, p: Path)
    requires p in files && !IsControl(p)
    ensures var plan := PlanFor(glob, staged, files, receipt);
            && (forall a, b :: InClass(plan, p, a) && InClass(plan, p, b) ==> a == b)
            && ((exists fate :: InClass(plan, p, fate)) <==> p in staged || !Stranded(glob, p))
            && (p !in staged && Stranded(glob, p) ==> p !in Installed(plan, files))
  {
    hide Excluded, Pruned;
    var plan := PlanFor(glob, staged, files, receipt);
    if p in staged || !Stranded(glob, p) {
      var fate := if p in staged then Replaced else if Excluded(glob, p) then KeptExcluded else if p in receipt
        then Deleted else KeptUnmanaged;
      assert InClass(plan, p, fate);
    }
  }

  /** What the swap makes of each class, and nothing else appears. */
  lemma FatesAreMet(glob: Glob, staged: map<Path, Staged>, files: Tree, receipt: Receipt, p: Path)
    ensures var plan := PlanFor(glob, staged, files, receipt);
            var tree := Installed(plan, files);
            && (InClass(plan, p, Replaced) ==> p in tree && tree[p] == staged[p].content)
            && (InClass(plan, p, Deleted) ==> p in files && p !in tree)
            && (InClass(plan, p, KeptUnmanaged) || InClass(plan, p, KeptExcluded)
                ==> p in files && p in tree && tree[p] == files[p])
            && (p in tree ==>
                InClass(plan, p, Replaced) || InClass(plan, p, KeptUnmanaged) || InClass(plan, p, KeptExcluded))
  {
  }

  /** What a sync leaves at a path, and what it says of it. A staged file is installed and recorded under the
      hash of what is then there; a file that is not staged stays exactly if a pattern matches it, or the managed
      scan sees it and no receipt knows it. */
  lemma FateExactly(glob: Glob, staged: map<Path, Staged>, files: Tree, receipt: Receipt, p: Path)
    requires p in staged || !IsControl(p)
    ensures var tree := Installed(PlanFor(glob, staged, files, receipt), files);
            if p in staged then
              && p in tree && tree[p] == staged[p].content
              && p in FreshReceipt(staged) && FreshReceipt(staged)[p] == Some(Digest(tree[p]))
            else
              && p !in FreshReceipt(staged)
              && (p in tree <==> p in files && (Excluded(glob, p) || (Visible(glob, p) && p !in receipt)))
              && (p in tree ==> tree[p] == files[p])
    ensures var drift := PlanFor(glob, staged, files, receipt).drift;
            p in drift <==>
              && p in files && Managed(glob, p)
              && p in receipt && (receipt[p] == None || receipt[p].value.content != files[p])
  {
    hide Excluded, Pruned;
  }

  /** The action announced for a staged file tells its origin, and for a file of the base whether the managed scan
      finds nothing there, other bytes, or the same. */
  lemma ActionsTell(glob: Glob, staged: map<Path, Staged>, files: Tree, receipt: Receipt, p: Path)
    requires p in staged
    ensures var plan := PlanFor(glob, staged, files, receipt);
            var found := p in files && Managed(glob, p);
            && p in plan.actions
            && (plan.actions[p] == Overlaid <==> staged[p].origin == Overlay)
            && (plan.actions[p] == Add <==> staged[p].origin == Base && !found)
            && (plan.actions[p] == Update <==> staged[p].origin == Base && found && files[p] != staged[p].content)
            && (plan.actions[p] == Same <==> staged[p].origin == Base && found && files[p] == staged[p].content)
    ensures var plan := PlanFor(glob, staged, files, receipt);
            plan.actions[p] == Same ==> p in files && Installed(plan, files)[p] == files[p]
  {
    hide Excluded, Pruned;
  }

  /** Patterns that only ever match single components, whatever path they are tried on. */
  ghost predicate ByComponent(glob: Glob) {
    forall p: Path :: glob(Join(p)) ==> exists part :: part in p && glob(part)
  }

  /** With such patterns exclusion is inherited below an excluded directory, and nothing is stranded. */
  lemma ComponentPatternsStrandNothing(glob: Glob, p: Path)
    requires ByComponent(glob)
    ensures !Stranded(glob, p) && (Pruned(glob, p) ==> Excluded(glob, p))
  {
  }

  // Drift

  /** A staged file, or one that neither scan would carry over. */
  predicate AtRisk(glob: Glob, staged: map<Path, Staged>, files: Tree, p: Path)
    requires p in files
  {
    if p in staged then staged[p].content != files[p] else !Excluded(glob, p)
  }

  /** An unforced sync goes through only without drift. A file that differs from its receipt hash is
      then invisible to the managed scan; it keeps its bytes exactly if it is not at risk. */
  lemma UnforcedSyncExactly(glob: Glob, staged: map<Path, Staged>, files: Tree, receipt: Receipt, p: Path)
    requires PlanFor(glob, staged, files, receipt).drift == {}
    requires p in files && !IsControl(p) && p in receipt && receipt[p] != Some(Digest(files[p]))
    ensures !Visible(glob, p)
    ensures var tree := Installed(PlanFor(glob, staged, files, receipt), files);
            p in tree && tree[p] == files[p] <==> !AtRisk(glob, staged, files, p)
  {
    hide Excluded, Pruned;
    assert p !in PlanFor(glob, staged, files, receipt).drift;
  }

  /** So with component patterns, and nothing staged at an excluded path, an unforced sync changes or
      removes no file that differs from its receipt hash. */
  lemma UnforcedSyncIsSafe(glob: Glob, staged: map<Path, Staged>, files: Tree, receipt: Receipt, p: Path)
    requires ByComponent(glob) && forall q :: q in staged ==> !Excluded(glob, q)
    requires PlanFor(glob, staged, files, receipt).drift == {}
    requires p in files && !IsControl(p) && p in receipt && receipt[p] != Some(Digest(files[p]))
    ensures var tree := Installed(PlanFor(glob, staged, files, receipt), files);
            p in tree && tree[p] == files[p]
  {
    hide Excluded, Pruned, PlanFor, Installed, ByComponent;
    UnforcedSyncExactly(glob, staged, files, receipt, p);
    ComponentPatternsStrandNothing(glob, p);
  }

  /** A pattern naming a nested directory loses what lies below it: the hand-edited file is neither
      reported as drift nor kept. */
  lemma NestedPatternLosesFiles()
    ensures var glob := (s: string) => s == "docs/private";
            var p := ["docs", "private", "notes"];
            var files := map[p := "edited"];
            var plan := PlanFor(glob, map[], files, map[p := Some(Digest("old"))]);
            Stranded(glob, p) && plan.drift == {} && p !in Installed(plan, files)
  {
    var glob := (s: string) => s == "docs/private";
    var p := ["docs", "private", "notes"];
    assert p[..2] == ["docs", "private"];
    JoinTwo("docs", "private");
    assert "docs" + "/" + "private" == "docs/private";
    assert Excluded(glob, p[..2]);
    JoinThree("docs", "private", "notes");
    assert !Excluded(glob, p) by {
      assert |"docs"| + 1 + |"private"| + 1 + |"notes"| == 18 && |"docs/private"| == 12;
    }
  }

  /** A mapped file that matches a pattern is overwritten although it was edited by hand: the scan for
      drift does not see it. */
  lemma ExcludedMappingOverwrites()
    ensures var glob := (s: string) => s == "notes";
            var p := ["notes"];
            var files, staged := map[p := "edited"], map[p := Staged(Base, "new")];
            var plan := PlanFor(glob, staged, files, map[p := Some(Digest("old"))]);
            plan.drift == {} && p in Installed(plan, files) && Installed(plan, files)[p] == "new"
  {
  }

  lemma JoinTwo(a: string, b: string)
    ensures Join([a, b]) == a + "/" + b
  {
  }

  lemma JoinThree(a: string, b: string, c: string)
    ensures |Join([a, b, c])| == |a| + 1 + |b| + 1 + |c|
  {
    assert [a, b, c][1..] == [b, c];
    JoinTwo(b, c);
  }

  // The fixed point

  /** Planning again after the swap finds no drift and nothing to delete, and applying that plan gives
      the same tree and the same receipt. */
  lemma SyncIsFixedPoint(glob: Glob, staged: map<Path, Staged>, files: Tree, receipt: Receipt)
    requires forall p :: p in staged ==> !IsControl(p)
    ensures var tree := Installed(PlanFor(glob, staged, files, receipt), files);
            var again := PlanFor(glob, staged, tree, FreshReceipt(staged));
            && again.drift == {} && again.deletes == {}
            && Installed(again, tree) == tree && FreshReceipt(again.staged) == FreshReceipt(staged)
            && (forall p :: p in staged && Visible(glob, p) ==>
                again.actions[p] == (if staged[p].origin == Overlay then Overlaid else Same))
  {
    hide Excluded, Pruned;
    var plan := PlanFor(glob, staged, files, receipt);
    var tree := Installed(plan, files);
    var again := PlanFor(glob, staged, tree, FreshReceipt(staged));
    forall p
      ensures p in tree <==> p in again.staged.Keys + (tree.Keys * (again.unmanaged + again.preserved))
    {
      FatesAreMet(glob, staged, files, receipt, p);
    }
    assert Installed(again, tree) == tree;
  }
}
