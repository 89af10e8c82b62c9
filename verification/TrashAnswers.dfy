/** What each operation on the trash answers and leaves. */
module TrashAnswers {
  import opened Options
  import opened Checks
  import opened RemotePaths
  import opened Trash

  /** An ASCII digit, letter, underscore or dash, by code. */
  predicate IdChar(c: char) {
    var n := c as int;
    48 <= n <= 57 || 65 <= n <= 90 || 97 <= n <= 122 || n == 95 || n == 45
  }

  predicate WellFormed(id: string) {
    1 <= |id| <= 40 && IdChar(id[0]) && id[0] != '-' && forall c <- id :: IdChar(c)
  }

  lemma WellFormedIffSafe(id: string)
    ensures WellFormed(id) <==> SafeId(id)
  {
    if id != "" {
      assert id[0] in id;
    }
  }

  function Refusal(reply: Reply): Option<Reply> {
    if reply == Ok then None else Some(reply)
  }

  // ---------------------------------------------------------------- remove

  /** The name below the root starts like the trash. */
  predicate NamedLikeTrash(root: Path, path: Path) {
    |path| > |root| && ".rsci-trash" <= path[|root|]
  }

  function RemoveChecks(w: World, root: Path, path: Path, cut: nat): seq<Check<Reply>> {
    [Check(root <= path, OutsideRoot),
     Check(path != root, RefusedRoot),
     Check(!NamedLikeTrash(root, path), AlreadyTrashed),
     Check(cut >= 3 && path in w.files, CommandFailed)]
  }

  /** A remove answers by its checks. Whatever it moved is in its entry, which names the path only at the end; a
      command that fails leaves what the ones before it did, and every other entry stays. */
  lemma RemoveAnswers(w: World, root: Path, path: Path, id: string, cut: nat)
    ensures var (w', reply) := RemoveSpec(w, root, path, id, cut);
            && AnswersTo(RemoveChecks(w, root, path, cut), Refusal(reply))
            && if cut == 0 || reply in {OutsideRoot, RefusedRoot, AlreadyTrashed} then w' == w
               else
                 && id in w'.entries && w'.entries == w.entries[id := w'.entries[id]]
                 && if cut == 1 || path !in w.files then w'.files == w.files && w'.entries[id] == Entry(map[], None)
                    else
                      && w'.files == Without(w.files, path) && w'.entries[id].payload == Below(w.files, path)
                      && w'.entries[id].meta == if reply == Ok then Some(Active(path)) else None
  {
    var c := RemoveChecks(w, root, path, cut);
    var k := FirstFailing(c);
    assert c == [c[0], c[1], c[2], c[3]];
  }

  // ---------------------------------------------------------------- restore and purge

  function EntryOf(w: World, id: string): Entry {
    if id in w.entries then w.entries[id] else Entry(map[], None)
  }

  predicate IsActive(e: Entry) {
    e.meta.Some? && e.meta.value.Active?
  }

  function RestoreChecks(w: World, root: Path, id: string, cut: nat): seq<Check<Reply>> {
    var e := EntryOf(w, id);
    var original := if IsActive(e) then e.meta.value.original else [];
    [Check(WellFormed(id), InvalidId),
     Check(e.meta.Some?, NotFound),
     Check(IsActive(e), AlreadyRestored),
     Check(root <= original, InvalidOriginal),
     Check(original !in w.files, TargetExists),
     Check(e.payload != map[], PayloadMissing),
     Check(cut >= 2 && original != [] && IsDir(w.files, original[..|original| - 1]), RestoreFailed)]
  }

  lemma RestoreChecksApply(w: World, root: Path, id: string, cut: nat)
    ensures AnswersTo(RestoreChecks(w, root, id, cut), Refusal(RestoreSpec(w, root, id, cut).1))
  {
    WellFormedIffSafe(id);
    var c := RestoreChecks(w, root, id, cut);
    var k := FirstFailing(c);
    assert c == [c[0], c[1], c[2], c[3], c[4], c[5], c[6]];
  }

  /** A restore answers by its checks. It changes something only if the move ran: then the entry is empty, and it
      says where the files went if and only if the metadata was written as well. */
  lemma RestoreAnswers(w: World, root: Path, id: string, cut: nat)
    ensures var (w', reply) := RestoreSpec(w, root, id, cut);
            && AnswersTo(RestoreChecks(w, root, id, cut), Refusal(reply))
            && (w' != w ==> cut > 0 && reply in {Ok, RestoreFailed})
            && (w' != w || reply == Ok ==>
                  && IsActive(EntryOf(w, id))
                  && var original := w.entries[id].meta.value.original;
                  && w'.files == w.files + Grafted(w.entries[id].payload, original)
                  && w'.entries == w.entries[id := Entry(map[], if reply == Ok then Some(Restored(original))
                                                                else w.entries[id].meta)])
  {
    RestoreChecksApply(w, root, id, cut);
  }

  function PurgeChecks(w: World, id: string, confirm: string): seq<Check<Reply>> {
    [Check(WellFormed(id), InvalidId), Check(confirm == id, ConfirmMismatch), Check(id in w.entries, NotFound)]
  }

  /** A purge answers by its checks, and takes the one entry named twice and nothing else. */
  lemma PurgeAnswers(w: World, root: Path, id: string, confirm: string)
    ensures var (w', reply) := PurgeSpec(w, root, id, confirm);
            && AnswersTo(PurgeChecks(w, id, confirm), Refusal(reply))
            && w' == if reply == Ok then World(w.files, w.entries - {id}) else w
  {
    WellFormedIffSafe(id);
    var c := PurgeChecks(w, id, confirm);
    var k := FirstFailing(c);
    assert c == [c[0], c[1], c[2]];
  }
}
