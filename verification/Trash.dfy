/** The gateway's trash: remove, restore and purge as steps on the remote file tree. */
module Trash {
  import opened Options
  import opened RemotePaths

  const TRASH_NAME := ".rsci-trash"

  /** Metadata is what metadata.json says: an active entry, or a restored one. */
  datatype Meta = Active(original: Path) | Restored(to: Path)

  /** A file keeps its inode, and so its identity, when it is moved. */
  datatype Node = Dir | Data(inode: nat, bytes: string)

  type Tree = map<Path, Node>

  /** One directory of the trash area: the moved tree by paths relative to it, empty when there is
      none, and the metadata once written. */
  datatype Entry = Entry(payload: Tree, meta: Option<Meta>)

  /** The server's files outside the trash area, and the entries of the trash area. */
  datatype World = World(files: Tree, entries: map<string, Entry>)

  datatype Reply =
    | Ok | OutsideRoot | RefusedRoot | AlreadyTrashed | CommandFailed | InvalidId | NotFound
    | AlreadyRestored | InvalidOriginal | TargetExists | PayloadMissing | RestoreFailed | ConfirmMismatch

  /** The shape of a trash identifier. */
  predicate SafeId(id: string) {
    0 < |id| <= 40 && id[0] != '-'
    && forall c <- id :: '0' <= c <= '9' || 'a' <= c <= 'z' || 'A' <= c <= 'Z' || c == '_' || c == '-'
  }

  /** The test is on text, so it also turns away siblings whose name merely starts like the trash. */
  predicate LooksTrashed(root: Path, path: Path) {
    |path| > |root| && TRASH_NAME <= path[|root|]
  }

  function Parent(p: Path): Path
    requires p != []
  {
    p[..|p| - 1]
  }

  predicate IsDir(t: Tree, p: Path) {
    p in t && t[p] == Dir
  }

  function Tails(t: Tree, top: Path): set<Path> {
    set p <- t | top <= p :: p[|top|..]
  }

  /** The subtree at a path, by paths relative to it. */
  function Below(t: Tree, top: Path): Tree {
    map r <- Tails(t, top) :: NodeAt(t, top, r)
  }

  function NodeAt(t: Tree, top: Path, r: Path): Node
    requires r in Tails(t, top)
  {
    assert top + r in t by {
      var p :| p in t && top <= p && r == p[|top|..];
      assert top + r == p;
    }
    t[top + r]
  }

  function Without(t: Tree, top: Path): Tree {
    map p <- t | !(top <= p) :: t[p]
  }

  function Places(sub: Tree, top: Path): set<Path> {
    set r <- sub :: top + r
  }

  /** A subtree put in place at a path. */
  function Grafted(sub: Tree, top: Path): Tree {
    map p <- Places(sub, top) :: GraftedNode(sub, top, p)
  }

  function GraftedNode(sub: Tree, top: Path, p: Path): Node
    requires p in Places(sub, top)
  {
    assert p[|top|..] in sub by {
      var r :| r in sub && p == top + r;
      assert p[|top|..] == r;
    }
    sub[p[|top|..]]
  }

  /** The three shell commands of op_remove; only the first cut of them run. */
  function RemoveSpec(w: World, root: Path, path: Path, id: string, cut: nat): (World, Reply) {
    if !(root <= path) then (w, OutsideRoot)
    else if path == root then (w, RefusedRoot)
    else if LooksTrashed(root, path) then (w, AlreadyTrashed)
    else if cut == 0 then (w, CommandFailed)
    else
      var made := w.(entries := w.entries[id := Entry(map[], None)]);
      if cut == 1 || path !in w.files then (made, CommandFailed)
      else
        var meta := if cut == 2 then None else Some(Active(path));
        (World(Without(w.files, path), w.entries[id := Entry(Below(w.files, path), meta)]),
         if cut == 2 then CommandFailed else Ok)
  }

  /** The two shell commands of op_restore; only the first cut of them run. */
  function RestoreSpec(w: World, root: Path, id: string, cut: nat): (World, Reply) {
    if !SafeId(id) then (w, InvalidId)
    else if id !in w.entries || w.entries[id].meta.None? then (w, NotFound)
    else if w.entries[id].meta.value.Restored? then (w, AlreadyRestored)
    else
      var original := w.entries[id].meta.value.original;
      if !(root <= original) then (w, InvalidOriginal)
      else if original in w.files then (w, TargetExists)
      else if w.entries[id].payload == map[] then (w, PayloadMissing)
      else if cut == 0 || original == [] || !IsDir(w.files, Parent(original)) then (w, RestoreFailed)
      else
        var meta := if cut == 1 then w.entries[id].meta else Some(Restored(original));
        (World(w.files + Grafted(w.entries[id].payload, original), w.entries[id := Entry(map[], meta)]),
         if cut == 1 then RestoreFailed else Ok)
  }

  function PurgeSpec(w: World, root: Path, id: string, confirm: string): (World, Reply) {
    if !SafeId(id) then (w, InvalidId)
    else if confirm != id then (w, ConfirmMismatch)
    else if id !in w.entries then (w, NotFound)
    else (w.(entries := w.entries - {id}), Ok)
  }

  /** op_trash_list: the entries whose metadata still carries an identifier. */
  function Listed(w: World): set<string> {
    set id <- w.entries | w.entries[id].meta.Some? && w.entries[id].meta.value.Active?
  }

  // ---------------------------------------------------------------- the gateway

  class Gateway {
    var files: Tree
    var entries: map<string, Entry>
    const root: Path

    function State(): World
      reads this
    {
      World(files, entries)
    }

    constructor (root: Path, files: Tree)
      ensures this.root == root && State() == World(files, map[])
    {
      this.root, this.files, this.entries := root, files, map[];
    }

    method Remove(path: Path, id: string, cut: nat) returns (reply: Reply)
      modifies this
      ensures (State(), reply) == RemoveSpec(old(State()), root, path, id, cut)
    {
      if !(root <= path) { return OutsideRoot; }
      if path == root { return RefusedRoot; }
      if LooksTrashed(root, path) { return AlreadyTrashed; }
      if cut == 0 { return CommandFailed; }
      entries := entries[id := Entry(map[], None)];
      if cut == 1 || path !in files { return CommandFailed; }
      entries := entries[id := entries[id].(payload := Below(files, path))];
      files := Without(files, path);
      assert entries == old(entries)[id := Entry(Below(old(files), path), None)];
      if cut == 2 { return CommandFailed; }
      entries := entries[id := entries[id].(meta := Some(Active(path)))];
      assert entries == old(entries)[id := Entry(Below(old(files), path), Some(Active(path)))];
      return Ok;
    }

    method TrashList() returns (items: set<string>)
      ensures items == Listed(State())
    {
      items := {};
      var todo := entries.Keys;
      while todo != {}
        invariant todo <= entries.Keys
        invariant items == Listed(State()) - todo
      {
        var id :| id in todo;
        todo := todo - {id};
        if entries[id].meta.Some? && entries[id].meta.value.Active? {
          items := items + {id};
        }
      }
    }

    method Restore(id: string, cut: nat) returns (reply: Reply)
      modifies this
      ensures (State(), reply) == RestoreSpec(old(State()), root, id, cut)
    {
      if !SafeId(id) { return InvalidId; }
      if id !in entries || entries[id].meta.None? { return NotFound; }
      var meta := entries[id].meta.value;
      if meta.Restored? { return AlreadyRestored; }
      var original := meta.original;
      if !(root <= original) { return InvalidOriginal; }
      if original in files { return TargetExists; }
      if entries[id].payload == map[] { return PayloadMissing; }
      if cut == 0 || original == [] || !IsDir(files, Parent(original)) { return RestoreFailed; }
      files := files + Grafted(entries[id].payload, original);
      entries := entries[id := entries[id].(payload := map[])];
      if cut == 1 { return RestoreFailed; }
      entries := entries[id := entries[id].(meta := Some(Restored(original)))];
      assert entries == old(entries)[id := Entry(map[], Some(Restored(original)))];
      return Ok;
    }

    method Purge(id: string, confirm: string) returns (reply: Reply)
      modifies this
      ensures (State(), reply) == PurgeSpec(old(State()), root, id, confirm)
    {
      if !SafeId(id) { return InvalidId; }
      if confirm != id { return ConfirmMismatch; }
      if id !in entries { return NotFound; }
      entries := entries - {id};
      return Ok;
    }
  }
}
