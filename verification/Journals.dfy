/** Journal progress and lineage: which journals are well formed, which journal may supersede
    which, and the order that gives. */
module Journals {
  import opened Options
  import opened Documents

  function Recorded(id: Option<Inode>): nat {
    if id.Some? then 1 else 0
  }

  /** Identities are recorded in the order selection, prepared manifest, manifest; a first journal
      names no predecessor, every other names one; committing needs all three identities. */
  predicate ValidProgress(j: Journal) {
    && (j.preparedId.Some? ==> j.selectionId.Some?)
    && (j.manifestId.Some? ==> j.preparedId.Some?)
    && j.previousId.Some? == j.previousDigest.Some?
    && match j.phase
       case Applying => j.previousId.Some? == j.selectionId.Some?
       case Committing => j.manifestId.Some? && j.previousId.Some?
  }

  function RecordedCount(j: Journal): nat {
    Recorded(j.selectionId) + Recorded(j.preparedId) + Recorded(j.manifestId)
  }

  /** The recorded identities of `before` all survive in `after`. */
  predicate KeepsIdentities(before: Journal, after: Journal) {
    && (before.selectionId.Some? ==> after.selectionId == before.selectionId)
    && (before.preparedId.Some? ==> after.preparedId == before.preparedId)
    && (before.manifestId.Some? ==> after.manifestId == before.manifestId)
  }

  predicate IsPredecessor(current: Journal, predecessor: Journal, predecessorFile: File) {
    && current.previousId == Some(predecessorFile.inode)
    && current.previousDigest == Some(Sha256(predecessorFile.payload))
    && current.tx == predecessor.tx
    && KeepsIdentities(predecessor, current)
    && predecessor.phase.Applying?
    && match current.phase
       case Applying => RecordedCount(current) == RecordedCount(predecessor) + 1
       case Committing =>
         && predecessor.manifestId.Some? && predecessor.preparedId.Some? && predecessor.selectionId.Some?
         && RecordedCount(current) == RecordedCount(predecessor)
  }

  /** Recorded identities, then phase: 0 for a first journal, 4 for a committing one. */
  function Rank(j: Journal): nat {
    RecordedCount(j) + if j.phase.Committing? then 1 else 0
  }

  /** A file that holds a journal accepted on its own. */
  predicate HoldsJournal(f: File) {
    f.payload.JournalJson? && ValidProgress(f.payload.journal)
  }

  predicate Supersedes(current: File, predecessor: File) {
    && HoldsJournal(current) && HoldsJournal(predecessor)
    && IsPredecessor(current.payload.journal, predecessor.payload.journal, predecessor)
  }

  predicate Chain(files: seq<File>) {
    && (forall i :: 0 <= i < |files| ==> HoldsJournal(files[i]))
    && forall i :: 0 <= i < |files| - 1 ==> Supersedes(files[i + 1], files[i])
  }

  /** Along a chain the rank rises by exactly one per journal, so a chain has at most five
      journals, all of one transaction, and only its last may be committing. */
  lemma {:induction false} ChainRises(files: seq<File>)
    requires Chain(files)
    ensures |files| <= 5
    ensures forall i :: 0 <= i < |files| ==>
      Rank(files[i].payload.journal) == Rank(files[0].payload.journal) + i
    ensures forall i :: 0 <= i < |files| ==> files[i].payload.journal.tx == files[0].payload.journal.tx
    ensures forall i :: 0 <= i < |files| - 1 ==> files[i].payload.journal.phase.Applying?
  {
    if |files| > 1 {
      var front := files[..|files| - 1];
      assert forall i :: 0 <= i < |front| - 1 ==> Supersedes(files[i + 1], files[i]);
      ChainRises(front);
      assert Supersedes(files[|files| - 2 + 1], files[|files| - 2]);
      assert forall i :: 0 <= i < |front| ==> front[i] == files[i];
    }
  }

  /** A chain that ends in a committing journal and starts at a first journal is complete: it has
      exactly the five journals of the protocol. */
  lemma CompleteChain(files: seq<File>)
    requires Chain(files) && files != []
    requires files[0].payload.journal.previousId.None?
    requires files[|files| - 1].payload.journal.phase.Committing?
    ensures |files| == 5
  {
    ChainRises(files);
  }

  // ---------------------------------------------------------------- journals over time

  /** Journals seen one after the other: each is the one before or its successor. */
  predicate Succession(files: seq<File>) {
    && (forall i :: 0 <= i < |files| ==> HoldsJournal(files[i]))
    && forall i :: 0 <= i < |files| - 1 ==> Follows(files[i + 1], files[i])
  }

  predicate Follows(after: File, before: File) {
    after == before || Supersedes(after, before)
  }

  /** In a succession the transaction stays and the rank never falls; it stays the same only while
      the journal is the same file. */
  lemma {:induction false} RankNeverFalls(files: seq<File>, i: nat, k: nat)
    requires Succession(files) && i <= k < |files|
    ensures files[k].payload.journal.tx == files[i].payload.journal.tx
    ensures Rank(files[i].payload.journal) <= Rank(files[k].payload.journal)
    ensures Rank(files[i].payload.journal) == Rank(files[k].payload.journal) ==> files[i] == files[k]
    decreases k
  {
    if i < k {
      RankNeverFalls(files, i, k - 1);
      assert Follows(files[k - 1 + 1], files[k - 1]);
    }
  }

  /** In a succession a superseded journal does not come back. */
  lemma SupersededNeverReturns(files: seq<File>, i: nat, j: nat, k: nat)
    requires Succession(files) && i <= j <= k < |files| && files[j] != files[i]
    ensures files[k] != files[i]
  {
    RankNeverFalls(files, i, j);
    RankNeverFalls(files, j, k);
  }

  /** Each journal of a succession once. */
  function Distinct(files: seq<File>): (once: seq<File>)
    ensures files != [] ==> once != [] && once[|once| - 1] == files[|files| - 1]
    ensures forall f :: f in files <==> f in once
  {
    if |files| <= 1 then files
    else
      var init, last := files[..|files| - 1], files[|files| - 1];
      if last == init[|init| - 1] then Distinct(init) else Distinct(init) + [last]
  }

  /** No journal of a succession comes back after another. */
  predicate NoReturn(files: seq<File>) {
    forall i, j, k :: 0 <= i <= j <= k < |files| && files[j] != files[i] ==> files[k] != files[i]
  }

  lemma SuccessionHasNoReturn(files: seq<File>)
    requires Succession(files)
    ensures NoReturn(files)
  {
    forall i, j, k | 0 <= i <= j <= k < |files| && files[j] != files[i] ensures files[k] != files[i] {
      SupersededNeverReturns(files, i, j, k);
    }
  }

  /** The journals of a succession form a chain, so there are at most five. */
  lemma {:induction false} SuccessionIsAChain(files: seq<File>)
    requires Succession(files)
    ensures Chain(Distinct(files)) && |Distinct(files)| <= 5
  {
    if |files| > 1 {
      var init, last := files[..|files| - 1], files[|files| - 1];
      SuccessionPrefix(files);
      SuccessionIsAChain(init);
      if last != init[|init| - 1] {
        ChainGrows(Distinct(init), last);
      }
    }
    ChainRises(Distinct(files));
  }

  lemma SuccessionPrefix(files: seq<File>)
    requires Succession(files) && |files| > 1
    ensures Succession(files[..|files| - 1]) && Follows(files[|files| - 1], files[|files| - 2])
  {
    var init := files[..|files| - 1];
    assert Follows(files[|files| - 2 + 1], files[|files| - 2]);
    forall i | 0 <= i < |init| - 1 ensures Follows(init[i + 1], init[i]) {
      assert Follows(files[i + 1], files[i]);
    }
  }

  lemma ChainGrows(files: seq<File>, next: File)
    requires Chain(files) && files != [] && Supersedes(next, files[|files| - 1])
    ensures Chain(files + [next])
  {
    var longer := files + [next];
    forall i | 0 <= i < |longer| - 1 ensures Supersedes(longer[i + 1], longer[i]) {
      if i + 1 < |files| {
        assert Supersedes(files[i + 1], files[i]);
      }
    }
  }
}
