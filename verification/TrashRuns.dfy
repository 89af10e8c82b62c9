/** Conservation over the trash: what removes, restores, purges and users' own writes keep. */
module TrashRuns {
  import opened Options
  import opened RemotePaths
  import opened Trash

  /** A file by identity and contents. */
  type Content = (nat, string)

  function Contents(t: Tree): set<Content> {
    set p <- t | t[p].Data? :: (t[p].inode, t[p].bytes)
  }

  /** Every file's contents, wherever it is. */
  function Stored(w: World): set<Content> {
    Contents(w.files) + Trashed(w)
  }

  function Trashed(w: World): set<Content> {
    set id, c | id in w.entries && c in Contents(w.entries[id].payload) :: c
  }

  ghost predicate Closed(t: Tree) {
    forall p <- t | p != [] :: IsDir(t, Parent(p))
  }

  lemma {:induction false} PrefixExists(t: Tree, p: Path, q: Path)
    requires Closed(t) && p in t && q <= p
    ensures q in t
  {
    if q != p {
      var up := Parent(p);
      assert q <= up;
      PrefixExists(t, up, q);
    }
  }

  // ---------------------------------------------------------------- cutting and grafting

  lemma BelowContents(t: Tree, top: Path)
    ensures Contents(t) == Contents(Without(t, top)) + Contents(Below(t, top))
  {
    forall p <- t | t[p].Data?
      ensures (t[p].inode, t[p].bytes) in Contents(Without(t, top)) + Contents(Below(t, top))
    {
      if top <= p {
        BelowAt(t, top, p);
      } else {
        assert p in Without(t, top);
      }
    }
    forall r <- Below(t, top) ensures top + r in t && t[top + r] == Below(t, top)[r] {
      BelowFrom(t, top, r);
    }
  }

  lemma BelowAt(t: Tree, top: Path, p: Path)
    requires p in t && top <= p
    ensures p[|top|..] in Below(t, top) && Below(t, top)[p[|top|..]] == t[p]
  {
    assert top + p[|top|..] == p;
  }

  lemma BelowFrom(t: Tree, top: Path, r: Path)
    ensures r in Below(t, top) <==> top + r in t
    ensures r in Below(t, top) ==> Below(t, top)[r] == t[top + r]
  {
    assert (top + r)[|top|..] == r;
    if r in Tails(t, top) {
      var p :| p in t && top <= p && r == p[|top|..];
      assert top + r == p;
    }
  }

  lemma GraftedAt(sub: Tree, top: Path, p: Path)
    ensures p in Grafted(sub, top) <==> top <= p && p[|top|..] in sub
    ensures p in Grafted(sub, top) ==> Grafted(sub, top)[p] == sub[p[|top|..]]
  {
    if p in Places(sub, top) {
      var r :| r in sub && p == top + r;
      assert p[|top|..] == r;
    }
    if top <= p && p[|top|..] in sub {
      assert top + p[|top|..] == p;
    }
  }

  lemma GraftedContents(sub: Tree, top: Path)
    ensures Contents(Grafted(sub, top)) == Contents(sub)
  {
    forall r <- sub ensures top + r in Grafted(sub, top) && Grafted(sub, top)[top + r] == sub[r] {
      assert (top + r)[|top|..] == r;
      GraftedAt(sub, top, top + r);
    }
    forall p <- Grafted(sub, top) ensures p[|top|..] in sub && Grafted(sub, top)[p] == sub[p[|top|..]] {
      GraftedAt(sub, top, p);
    }
  }

  /** Grafting onto a name that does not exist touches nothing that does. */
  lemma GraftIsDisjoint(t: Tree, sub: Tree, top: Path)
    requires Closed(t) && top !in t
    ensures t.Keys !! Grafted(sub, top).Keys
    ensures Contents(t + Grafted(sub, top)) == Contents(t) + Contents(sub)
  {
    var g := Grafted(sub, top);
    forall p <- t ensures p !in g {
      GraftedAt(sub, top, p);
      if top <= p {
        PrefixExists(t, p, top);
      }
    }
    GraftedContents(sub, top);
    DisjointUnionContents(t, g);
  }

  lemma DisjointUnionContents(a: Tree, b: Tree)
    requires a.Keys !! b.Keys
    ensures Contents(a + b) == Contents(a) + Contents(b)
  {
    forall p <- a ensures (a + b)[p] == a[p] { }
    forall p <- b ensures (a + b)[p] == b[p] { }
  }

  /** A subtree is whole: it has its own top, and every parent but the top's. */
  ghost predicate WholeSubtree(sub: Tree) {
    forall r <- sub | r != [] :: IsDir(sub, Parent(r))
  }

  lemma BelowIsWhole(t: Tree, top: Path)
    requires Closed(t)
    ensures WholeSubtree(Below(t, top))
  {
    forall r <- Below(t, top) | r != [] ensures IsDir(Below(t, top), Parent(r)) {
      BelowFrom(t, top, r);
      assert Parent(top + r) == top + Parent(r);
      BelowFrom(t, top, Parent(r));
    }
  }

  lemma WithoutStaysClosed(t: Tree, top: Path)
    requires Closed(t)
    ensures Closed(Without(t, top))
  {
    forall p <- Without(t, top) | p != [] ensures IsDir(Without(t, top), Parent(p)) {
      assert IsDir(t, Parent(p));
      assert Parent(p) <= p;
    }
  }

  lemma GraftStaysClosed(t: Tree, sub: Tree, top: Path)
    requires Closed(t) && WholeSubtree(sub) && top !in t && top != [] && IsDir(t, Parent(top))
    ensures Closed(t + Grafted(sub, top))
  {
    GraftIsDisjoint(t, sub, top);
    var t' := t + Grafted(sub, top);
    forall p <- t' | p != [] ensures IsDir(t', Parent(p)) {
      if p in t {
        assert IsDir(t, Parent(p));
      } else if p == top {
        assert t'[Parent(top)] == t[Parent(top)];
      } else {
        GraftedParent(sub, top, p);
      }
    }
  }

  lemma GraftedParent(sub: Tree, top: Path, p: Path)
    requires WholeSubtree(sub) && p in Grafted(sub, top) && p != top
    ensures p != [] && IsDir(Grafted(sub, top), Parent(p))
  {
    GraftedAt(sub, top, p);
    var r := p[|top|..];
    assert p == top + r && top + [] == top;
    assert Parent(p)[|top|..] == Parent(r) && top <= Parent(p);
    GraftedAt(sub, top, Parent(p));
  }

  // ---------------------------------------------------------------- runs

  datatype Step =
    | Remove(path: Path, id: string, cut: nat)
    | Restore(rid: string, rcut: nat)
    | Purge(pid: string, confirm: string)
    | Create(at: Path, node: Node)  // somebody makes a file or directory outside the trash

  /** Trash identifiers are fresh; users create only what does not exist, in existing directories. */
  predicate Enabled(w: World, step: Step) {
    match step
    case Remove(_, id, _) => id !in w.entries
    case Create(at, _) => at !in w.files && at != [] && IsDir(w.files, Parent(at))
    case _ => true
  }

  function Next(w: World, root: Path, step: Step): World
    requires Enabled(w, step)
  {
    match step
    case Remove(path, id, cut) => RemoveSpec(w, root, path, id, cut).0
    case Restore(id, cut) => RestoreSpec(w, root, id, cut).0
    case Purge(id, confirm) => PurgeSpec(w, root, id, confirm).0
    case Create(at, node) => w.(files := w.files[at := node])
  }

  predicate EnabledRun(w: World, root: Path, steps: seq<Step>)
    decreases |steps|
  {
    steps == [] || (Enabled(w, steps[0]) && EnabledRun(Next(w, root, steps[0]), root, steps[1..]))
  }

  function After(w: World, root: Path, steps: seq<Step>): World
    requires EnabledRun(w, root, steps)
    decreases |steps|
  {
    if steps == [] then w else After(Next(w, root, steps[0]), root, steps[1..])
  }

  /** Everything a run creates, and everything its purges destroy. */
  function Created(steps: seq<Step>): set<Content> {
    if steps == [] then {} else
      (if steps[0].Create? && steps[0].node.Data? then {(steps[0].node.inode, steps[0].node.bytes)} else {})
      + Created(steps[1..])
  }

  function Purged(w: World, root: Path, steps: seq<Step>): set<Content>
    requires EnabledRun(w, root, steps)
    decreases |steps|
  {
    if steps == [] then {} else
      (if steps[0].Purge? && PurgeSpec(w, root, steps[0].pid, steps[0].confirm).1 == Ok
       then Contents(w.entries[steps[0].pid].payload) else {})
      + Purged(Next(w, root, steps[0]), root, steps[1..])
  }

  ghost predicate Sound(w: World) {
    && Closed(w.files)
    && (forall id <- w.entries :: WholeSubtree(w.entries[id].payload))
    && (forall id <- w.entries :: w.entries[id].meta.Some? && w.entries[id].meta.value.Restored? ==>
          w.entries[id].payload == map[])
  }

  lemma EntryChange(w: World, w': World, id: string)
    requires id in w'.entries && w'.entries == w.entries[id := w'.entries[id]]
    ensures Trashed(w') <= Trashed(w) + Contents(w'.entries[id].payload)
    ensures Contents(w'.entries[id].payload) <= Trashed(w')
    ensures id in w.entries ==> Contents(w.entries[id].payload) <= Trashed(w)
    ensures Trashed(w) <= Trashed(w') + if id in w.entries then Contents(w.entries[id].payload) else {}
  {
    forall i, c | i in w.entries && c in Contents(w.entries[i].payload) && i != id ensures c in Trashed(w') {
      assert c in Contents(w'.entries[i].payload);
    }
    forall i, c | i in w'.entries && c in Contents(w'.entries[i].payload) && i != id ensures c in Trashed(w) {
      assert c in Contents(w.entries[i].payload);
    }
  }

  /** A remove keeps every file, wherever it is cut off. */
  lemma RemoveConserves(w: World, root: Path, path: Path, id: string, cut: nat)
    requires Sound(w) && id !in w.entries
    ensures Sound(RemoveSpec(w, root, path, id, cut).0)
    ensures Stored(RemoveSpec(w, root, path, id, cut).0) == Stored(w)
  {
    var w' := RemoveSpec(w, root, path, id, cut).0;
    if w' != w {
      EntryChange(w, w', id);
      BelowContents(w.files, path);
      BelowIsWhole(w.files, path);
      WithoutStaysClosed(w.files, path);
    }
  }

  /** A restore keeps every file, wherever it is cut off, and overwrites none. */
  lemma RestoreConserves(w: World, root: Path, id: string, cut: nat)
    requires Sound(w)
    ensures Sound(RestoreSpec(w, root, id, cut).0)
    ensures Stored(RestoreSpec(w, root, id, cut).0) == Stored(w)
    ensures forall p <- w.files ::
              p in RestoreSpec(w, root, id, cut).0.files && RestoreSpec(w, root, id, cut).0.files[p] == w.files[p]
  {
    var w' := RestoreSpec(w, root, id, cut).0;
    if w' != w {
      var original := w.entries[id].meta.value.original;
      EntryChange(w, w', id);
      assert Contents(map[]) == {};
      GraftIsDisjoint(w.files, w.entries[id].payload, original);
      GraftStaysClosed(w.files, w.entries[id].payload, original);
    }
  }

  /** A purge destroys exactly the payload of the entry named twice: nothing if it was restored. */
  lemma PurgeTakesPayload(w: World, root: Path, id: string, confirm: string)
    requires Sound(w) && PurgeSpec(w, root, id, confirm).1 == Ok
    ensures Sound(PurgeSpec(w, root, id, confirm).0) && confirm == id
    ensures Stored(PurgeSpec(w, root, id, confirm).0) + Contents(w.entries[id].payload) == Stored(w)
    ensures w.entries[id].meta.Some? && w.entries[id].meta.value.Restored? ==> Contents(w.entries[id].payload) == {}
    ensures PurgeSpec(w, root, id, confirm).0.files == w.files
  {
    var w' := PurgeSpec(w, root, id, confirm).0;
    forall i, c | i in w.entries && c in Contents(w.entries[i].payload) && i != id ensures c in Trashed(w') {
      assert c in Contents(w'.entries[i].payload);
    }
    forall i, c | i in w'.entries && c in Contents(w'.entries[i].payload) ensures c in Trashed(w) {
      assert c in Contents(w.entries[i].payload);
    }
  }

  lemma CreateAdds(w: World, at: Path, node: Node)
    requires Sound(w) && Enabled(w, Create(at, node))
    ensures Sound(w.(files := w.files[at := node]))
    ensures Stored(w.(files := w.files[at := node]))
            == Stored(w) + if node.Data? then {(node.inode, node.bytes)} else {}
  {
    var t' := w.files[at := node];
    forall p <- t' | p != [] ensures IsDir(t', Parent(p)) {
      assert p in w.files ==> IsDir(w.files, Parent(p));
    }
    DisjointUnionContents(w.files, map[at := node]);
    assert t' == w.files + map[at := node];
  }

  /** Over every run, crashes included: what is stored at the end, with what purges destroyed, is what
      was stored at the start, with what was created. */
  lemma {:induction false} RunConserves(w: World, root: Path, steps: seq<Step>)
    requires Sound(w) && EnabledRun(w, root, steps)
    ensures Sound(After(w, root, steps))
    ensures Stored(After(w, root, steps)) + Purged(w, root, steps) == Stored(w) + Created(steps)
    decreases |steps|
  {
    if steps != [] {
      match steps[0] {
        case Remove(path, id, cut) => RemoveConserves(w, root, path, id, cut);
        case Restore(id, cut) => RestoreConserves(w, root, id, cut);
        case Purge(id, confirm) =>
          if PurgeSpec(w, root, id, confirm).1 == Ok {
            PurgeTakesPayload(w, root, id, confirm);
          }
        case Create(at, node) => CreateAdds(w, at, node);
      }
      RunConserves(Next(w, root, steps[0]), root, steps[1..]);
    }
  }

  // ---------------------------------------------------------------- one entry

  predicate Concerns(step: Step, id: string) {
    (step.Remove? && step.id == id) || (step.Restore? && step.rid == id) || (step.Purge? && step.pid == id)
  }

  /** Nothing but an operation on the entry itself changes it. */
  lemma {:induction false} OthersLeaveEntryAlone(w: World, root: Path, steps: seq<Step>, id: string)
    requires EnabledRun(w, root, steps) && id in w.entries
    requires forall step <- steps :: !Concerns(step, id)
    ensures id in After(w, root, steps).entries && After(w, root, steps).entries[id] == w.entries[id]
    decreases |steps|
  {
    if steps != [] {
      assert steps[0] in steps && forall later <- steps[1..] :: later in steps;
      OthersLeaveEntryAlone(Next(w, root, steps[0]), root, steps[1..], id);
    }
  }

  /** Remove, then anything that does not concern the entry, then a successful restore: the original
      path holds exactly the tree that was removed, and everything else is as it was before the restore. */
  lemma RestoreGivesBackWhatWasRemoved(w: World, root: Path, path: Path, id: string, between: seq<Step>)
    requires Sound(w) && id !in w.entries && RemoveSpec(w, root, path, id, 3).1 == Ok
    requires EnabledRun(RemoveSpec(w, root, path, id, 3).0, root, between)
    requires forall step <- between :: !Concerns(step, id)
    requires RestoreSpec(After(RemoveSpec(w, root, path, id, 3).0, root, between), root, id, 2).1 == Ok
    ensures var w2 := After(RemoveSpec(w, root, path, id, 3).0, root, between);
            var w3 := RestoreSpec(w2, root, id, 2).0;
            && Below(w3.files, path) == Below(w.files, path)
            && Without(w3.files, path) == w2.files
  {
    var w1 := RemoveSpec(w, root, path, id, 3).0;
    RemoveConserves(w, root, path, id, 3);
    RunConserves(w1, root, between);
    OthersLeaveEntryAlone(w1, root, between, id);
    var w2 := After(w1, root, between);
    RestoredFiles(w2, root, id);
    CutUndoesGraft(w2.files, Below(w.files, path), path);
  }

  /** What a successful restore does to the files. */
  lemma RestoredFiles(w: World, root: Path, id: string)
    requires RestoreSpec(w, root, id, 2).1 == Ok
    ensures id in w.entries && w.entries[id].meta.Some? && w.entries[id].meta.value.Active?
    ensures var original := w.entries[id].meta.value.original;
            original !in w.files
            && RestoreSpec(w, root, id, 2).0.files == w.files + Grafted(w.entries[id].payload, original)
  {
  }

  lemma CutUndoesGraft(t: Tree, sub: Tree, top: Path)
    requires Closed(t) && top !in t
    ensures Below(t + Grafted(sub, top), top) == sub
    ensures Without(t + Grafted(sub, top), top) == t
  {
    GraftIsDisjoint(t, sub, top);
    var t' := t + Grafted(sub, top);
    forall r ensures r in Below(t', top) <==> r in sub
             ensures r in sub ==> Below(t', top)[r] == sub[r] {
      BelowFrom(t', top, r);
      GraftedAt(sub, top, top + r);
      assert (top + r)[|top|..] == r;
      if top + r in t {
        PrefixExists(t, top + r, top);
      }
    }
    forall p ensures p in Without(t', top) <==> p in t {
      GraftedAt(sub, top, p);
      if p in t && top <= p {
        PrefixExists(t, p, top);
      }
    }
  }

  lemma GraftUndoesCut(t: Tree, top: Path)
    ensures Without(t, top) + Grafted(Below(t, top), top) == t
  {
    var t' := Without(t, top) + Grafted(Below(t, top), top);
    forall p ensures p in t' <==> p in t
             ensures p in t ==> t'[p] == t[p] {
      GraftedAt(Below(t, top), top, p);
      if top <= p {
        BelowFrom(t, top, p[|top|..]);
        assert top + p[|top|..] == p;
      }
    }
  }

  /** What a successful remove leaves behind: everything a restore will ask for. */
  lemma RemovedIsReadyToRestore(w: World, root: Path, path: Path, id: string)
    requires Sound(w) && RemoveSpec(w, root, path, id, 3).1 == Ok
    ensures root <= path && path != [] && path in w.files && path !in Without(w.files, path)
    ensures Below(w.files, path) != map[]
    ensures IsDir(Without(w.files, path), Parent(path))
  {
    BelowAt(w.files, path, path);
    assert IsDir(w.files, Parent(path)) && !(path <= Parent(path));
  }

  /** Remove then restore is the identity on the files outside the trash, and always succeeds. */
  lemma RemoveThenRestoreIsIdentity(w: World, root: Path, path: Path, id: string)
    requires Sound(w) && SafeId(id) && id !in w.entries && RemoveSpec(w, root, path, id, 3).1 == Ok
    ensures RestoreSpec(RemoveSpec(w, root, path, id, 3).0, root, id, 2).1 == Ok
    ensures RestoreSpec(RemoveSpec(w, root, path, id, 3).0, root, id, 2).0.files == w.files
  {
    RemovedIsReadyToRestore(w, root, path, id);
    ReadyRestoreSucceeds(RemoveSpec(w, root, path, id, 3).0, root, path, id);
    GraftUndoesCut(w.files, path);
  }

  /** A remove cut off anywhere can be restored if and only if its last command ran. */
  lemma RemovedIsRestorableIff(w: World, root: Path, path: Path, id: string, cut: nat)
    requires Sound(w) && SafeId(id) && id !in w.entries && RemoveSpec(w, root, path, id, 3).1 == Ok
    ensures RestoreSpec(RemoveSpec(w, root, path, id, cut).0, root, id, 2).1 == Ok <==> cut >= 3
  {
    var w1 := RemoveSpec(w, root, path, id, cut).0;
    if cut >= 3 {
      assert w1 == RemoveSpec(w, root, path, id, 3).0;
      RemoveThenRestoreIsIdentity(w, root, path, id);
    } else {
      assert id !in w1.entries || w1.entries[id].meta.None?;
    }
  }

  lemma ReadyRestoreSucceeds(w: World, root: Path, original: Path, id: string)
    requires SafeId(id) && id in w.entries && w.entries[id].meta == Some(Active(original))
    requires root <= original && original != [] && original !in w.files && IsDir(w.files, Parent(original))
    requires w.entries[id].payload != map[]
    ensures RestoreSpec(w, root, id, 2).1 == Ok
    ensures RestoreSpec(w, root, id, 2).0.files == w.files + Grafted(w.entries[id].payload, original)
  {
  }

  /** No restore of this entry can succeed: it is gone, was restored, or never got its metadata. */
  predicate Unrestorable(w: World, id: string) {
    id !in w.entries || w.entries[id].meta.None? || w.entries[id].meta.value.Restored?
  }

  /** If the entry is listed, it holds a payload that came from a path inside the root. */
  ghost predicate Ready(w: World, root: Path, id: string) {
    id in Listed(w) ==>
      var original := w.entries[id].meta.value.original;
      root <= original && original != [] && w.entries[id].payload != map[]
  }

  /** A restore of this entry cut off between its move and its metadata. */
  predicate HalfRestores(step: Step, id: string) {
    step.Restore? && step.rid == id && step.rcut == 1
  }

  lemma RemoveKeepsReady(w: World, root: Path, path: Path, newId: string, cut: nat, id: string)
    requires Ready(w, root, id) && newId !in w.entries
    ensures Ready(RemoveSpec(w, root, path, newId, cut).0, root, id)
  {
    if newId == id && path in w.files {
      BelowAt(w.files, path, path);
    }
  }

  lemma StepKeepsReady(w: World, root: Path, step: Step, id: string)
    requires Ready(w, root, id) && Enabled(w, step) && !HalfRestores(step, id)
    ensures Ready(Next(w, root, step), root, id)
  {
    match step
    case Remove(path, newId, cut) => RemoveKeepsReady(w, root, path, newId, cut, id);
    case _ =>
  }

  lemma {:induction false} RunKeepsReady(w: World, root: Path, steps: seq<Step>, id: string)
    requires Ready(w, root, id) && EnabledRun(w, root, steps)
    requires forall step <- steps :: !HalfRestores(step, id)
    ensures Ready(After(w, root, steps), root, id)
    decreases |steps|
  {
    if steps != [] {
      assert steps[0] in steps && forall later <- steps[1..] :: later in steps;
      StepKeepsReady(w, root, steps[0], id);
      RunKeepsReady(Next(w, root, steps[0]), root, steps[1..], id);
    }
  }

  /** What a restore asks of a ready entry. */
  lemma ReadyRestoreIff(w: World, root: Path, id: string)
    requires Ready(w, root, id)
    ensures RestoreSpec(w, root, id, 2).1 == Ok <==>
              && SafeId(id) && id in Listed(w)
              && w.entries[id].meta.value.original !in w.files
              && w.entries[id].meta.value.original != []
              && IsDir(w.files, Parent(w.entries[id].meta.value.original))
  {
  }

  /** After any run in which no restore of this entry was cut off half way, the list is what can be
      restored: a restore succeeds exactly for a listed entry whose path is free and whose parent
      directory is there. */
  lemma RestoreSucceedsIff(w: World, root: Path, steps: seq<Step>, id: string)
    requires Ready(w, root, id) && EnabledRun(w, root, steps)
    requires forall step <- steps :: !HalfRestores(step, id)
    ensures var w' := After(w, root, steps);
            RestoreSpec(w', root, id, 2).1 == Ok <==>
              && SafeId(id) && id in Listed(w')
              && w'.entries[id].meta.value.original !in w'.files
              && w'.entries[id].meta.value.original != []
              && IsDir(w'.files, Parent(w'.entries[id].meta.value.original))
  {
    RunKeepsReady(w, root, steps, id);
    ReadyRestoreIff(After(w, root, steps), root, id);
  }

  /** An entry once unrestorable stays so, through every run that does not reuse its identifier: so a
      restore succeeds at most once, and a remove cut off before its metadata strands its payload. */
  lemma {:induction false} UnrestorableForever(w: World, root: Path, steps: seq<Step>, id: string, cut: nat)
    requires EnabledRun(w, root, steps) && Unrestorable(w, id)
    requires forall step <- steps :: !(step.Remove? && step.id == id)
    ensures Unrestorable(After(w, root, steps), id)
    ensures RestoreSpec(After(w, root, steps), root, id, cut).1 != Ok
    decreases |steps|
  {
    if steps != [] {
      assert steps[0] in steps && forall later <- steps[1..] :: later in steps;
      UnrestorableForever(Next(w, root, steps[0]), root, steps[1..], id, cut);
    }
  }

  lemma RestoreSucceedsAtMostOnce(w: World, root: Path, id: string, steps: seq<Step>)
    requires RestoreSpec(w, root, id, 2).1 == Ok
    requires EnabledRun(RestoreSpec(w, root, id, 2).0, root, steps)
    requires forall step <- steps :: !(step.Remove? && step.id == id)
    ensures RestoreSpec(After(RestoreSpec(w, root, id, 2).0, root, steps), root, id, 2).1 != Ok
  {
    UnrestorableForever(RestoreSpec(w, root, id, 2).0, root, steps, id, 2);
  }

  /** A remove cut off between its move and its metadata keeps the files, but no later restore reaches them. */
  lemma CutRemoveStrandsPayload(w: World, root: Path, path: Path, id: string, steps: seq<Step>)
    requires Sound(w) && id !in w.entries && RemoveSpec(w, root, path, id, 3).1 == Ok
    requires EnabledRun(RemoveSpec(w, root, path, id, 2).0, root, steps)
    requires forall step <- steps :: !(step.Remove? && step.id == id)
    ensures Contents(Below(w.files, path)) <= Trashed(RemoveSpec(w, root, path, id, 2).0)
    ensures RestoreSpec(After(RemoveSpec(w, root, path, id, 2).0, root, steps), root, id, 2).1 != Ok
  {
    var w1 := RemoveSpec(w, root, path, id, 2).0;
    EntryChange(w, w1, id);
    UnrestorableForever(w1, root, steps, id, 2);
  }
}
