/** Retention of capture files: an age pass, then eviction of the oldest until the total fits the cap.
    Whether each deletion works is left open. */
module Retention {
  import opened Bytes

  datatype PcapFile = PcapFile(path: nat, modified: int, size: nat)

  function Size(f: PcapFile): nat {
    f.size
  }

  function Elements(s: seq<PcapFile>): set<PcapFile> {
    set f | f in s
  }

  predicate Distinct(s: seq<PcapFile>) {
    forall i, j :: 0 <= i < j < |s| ==> s[i] != s[j]
  }

  predicate OldestFirst(s: seq<PcapFile>) {
    forall i, j :: 0 <= i < j < |s| ==> s[i].modified <= s[j].modified
  }

  // ---------- sorting by modification time ----------

  /** Behind every file that is not newer, so equal times keep their order. */
  function Insert(s: seq<PcapFile>, f: PcapFile): seq<PcapFile> {
    if s == [] || s[|s| - 1].modified <= f.modified then s + [f]
    else Insert(s[..|s| - 1], f) + [s[|s| - 1]]
  }

  function SortByModified(s: seq<PcapFile>): seq<PcapFile> {
    if s == [] then [] else Insert(SortByModified(s[..|s| - 1]), s[|s| - 1])
  }

  lemma {:induction false} InsertKeepsFiles(s: seq<PcapFile>, f: PcapFile)
    ensures multiset(Insert(s, f)) == multiset(s) + multiset{f}
  {
    if s != [] && s[|s| - 1].modified > f.modified {
      InsertKeepsFiles(s[..|s| - 1], f);
      assert s == s[..|s| - 1] + [s[|s| - 1]];
    }
  }

  /** Putting a file at the end that is at least as new as all others. */
  lemma SnocSorts(t: seq<PcapFile>, last: PcapFile)
    requires OldestFirst(t)
    requires forall i :: 0 <= i < |t| ==> t[i].modified <= last.modified
    ensures OldestFirst(t + [last])
  {
  }

  /** Whatever bounds the old files and the new one bounds all of them after the insertion. */
  lemma InsertBounded(s: seq<PcapFile>, f: PcapFile, newest: int)
    requires forall i :: 0 <= i < |s| ==> s[i].modified <= newest
    requires f.modified <= newest
    ensures forall i :: 0 <= i < |Insert(s, f)| ==> Insert(s, f)[i].modified <= newest
  {
    InsertKeepsFiles(s, f);
    var t := Insert(s, f);
    forall i | 0 <= i < |t|
      ensures t[i].modified <= newest
    {
      assert t[i] in multiset(t);
      assert t[i] in multiset(s) || t[i] == f;
    }
  }

  lemma {:induction false} InsertSorts(s: seq<PcapFile>, f: PcapFile)
    requires OldestFirst(s)
    ensures OldestFirst(Insert(s, f))
  {
    if s != [] && s[|s| - 1].modified > f.modified {
      var init, last := s[..|s| - 1], s[|s| - 1];
      InsertSorts(init, f);
      InsertBounded(init, f, last.modified);
      SnocSorts(Insert(init, f), last);
    }
  }

  lemma {:induction false} SortSorts(s: seq<PcapFile>)
    ensures OldestFirst(SortByModified(s))
    ensures multiset(SortByModified(s)) == multiset(s)
  {
    if s != [] {
      var init, last := s[..|s| - 1], s[|s| - 1];
      SortSorts(init);
      InsertSorts(SortByModified(init), last);
      InsertKeepsFiles(SortByModified(init), last);
      MultisetSnoc(init, last);
      assert s == init + [last];
    }
  }

  lemma MultisetSnoc(s: seq<PcapFile>, f: PcapFile)
    ensures multiset(s + [f]) == multiset(s) + multiset{f}
  {
  }

  lemma DistinctByMultiset(s: seq<PcapFile>)
    ensures Distinct(s) <==> forall f :: multiset(s)[f] <= 1
  {
    if Distinct(s) {
      forall f
        ensures multiset(s)[f] <= 1
      {
        OccursOnce(s, f);
      }
    }
    if !Distinct(s) {
      var i, j :| 0 <= i < j < |s| && s[i] == s[j];
      assert s == s[..j] + [s[j]] + s[j + 1..];
      assert s[i] in s[..j];
      assert multiset(s)[s[i]] >= 2;
    }
  }

  lemma {:induction false} OccursOnce(s: seq<PcapFile>, f: PcapFile)
    requires Distinct(s)
    ensures multiset(s)[f] <= 1
  {
    if s != [] {
      var init, last := s[..|s| - 1], s[|s| - 1];
      OccursOnce(init, f);
      assert s == init + [last];
      assert last !in init;
    }
  }

  lemma SortKeepsFiles(s: seq<PcapFile>)
    requires Distinct(s)
    ensures Distinct(SortByModified(s))
    ensures Elements(SortByModified(s)) == Elements(s)
  {
    SortSorts(s);
    DistinctByMultiset(s);
    DistinctByMultiset(SortByModified(s));
    forall f
      ensures f in SortByModified(s) <==> f in s
    {
      assert f in s <==> f in multiset(s);
      assert f in SortByModified(s) <==> f in multiset(SortByModified(s));
    }
  }

  // ---------- the two passes ----------

  class Directory {
    var files: set<PcapFile>

    method Remove(f: PcapFile, works: bool) returns (removed: bool)
      modifies this
      ensures removed == works
      ensures files == if works then old(files) - {f} else old(files)
    {
      removed := works;
      if works {
        files := files - {f};
      }
    }
  }

  /** Deletes what is older than the cutoff; failures are ignored. */
  method RemoveExpired(dir: Directory, listed: seq<PcapFile>, cutoff: int, works: PcapFile -> bool)
    modifies dir
    ensures dir.files == set f | f in old(dir.files) && !(f in listed && f.modified < cutoff && works(f))
  {
    var k := 0;
    while k < |listed|
      invariant k <= |listed|
      invariant dir.files == set f | f in old(dir.files) && !(f in listed[..k] && f.modified < cutoff && works(f))
    {
      assert listed[..k + 1] == listed[..k] + [listed[k]];
      if listed[k].modified < cutoff {
        var _ := dir.Remove(listed[k], works(listed[k]));
      }
      k := k + 1;
    }
    assert listed[..k] == listed;
  }

  /** What eviction leaves behind. `kept` resisted deletion; `rest` was never tried. */
  predicate Evicted(kept: seq<PcapFile>, rest: seq<PcapFile>, evicted: seq<PcapFile>, total: int, cap: nat,
                    works: PcapFile -> bool)
  {
    && total == Sum(Size, kept) + Sum(Size, rest)
    && (forall f :: f in kept ==> !works(f))
    && (forall f :: f in evicted ==> works(f))
    && (forall f, g :: f in evicted && g in rest ==> f.modified <= g.modified)
    && (evicted != [] ==> total + evicted[|evicted| - 1].size > cap)
  }

  /** Where the eviction loop stands: `present` is what is on disk. */
  predicate Evicting(files: set<PcapFile>, present: set<PcapFile>, kept: seq<PcapFile>, rest: seq<PcapFile>,
                     evicted: seq<PcapFile>, total: int, cap: nat, works: PcapFile -> bool)
  {
    && present == Elements(kept) + Elements(rest)
    && files == present + Elements(evicted)
    && present !! Elements(evicted)
    && Elements(kept) !! Elements(rest)
    && OldestFirst(rest) && Distinct(rest)
    && Evicted(kept, rest, evicted, total, cap, works)
  }

  lemma {:induction false} SumFromFront(s: seq<PcapFile>)
    requires s != []
    ensures Sum(Size, s) == s[0].size + Sum(Size, s[1..])
  {
    assert s == [s[0]] + s[1..];
    SumAppend(Size, [s[0]], s[1..]);
    assert [s[0]][..0] == [];
  }

  lemma SumSnoc(s: seq<PcapFile>, f: PcapFile)
    ensures Sum(Size, s + [f]) == Sum(Size, s) + f.size
  {
  }

  lemma ElementsSnoc(s: seq<PcapFile>, f: PcapFile)
    ensures Elements(s + [f]) == Elements(s) + {f}
    ensures Distinct(s) && f !in s ==> Distinct(s + [f])
  {
  }

  lemma FirstOfRest(rest: seq<PcapFile>)
    requires rest != [] && Distinct(rest) && OldestFirst(rest)
    ensures Elements(rest) == {rest[0]} + Elements(rest[1..]) && rest[0] !in Elements(rest[1..])
    ensures Distinct(rest[1..]) && OldestFirst(rest[1..])
    ensures forall g :: g in rest[1..] ==> rest[0].modified <= g.modified && g in rest
  {
  }

  lemma EvictFirst(files: set<PcapFile>, present: set<PcapFile>, kept: seq<PcapFile>, rest: seq<PcapFile>,
                   evicted: seq<PcapFile>, total: int, cap: nat, works: PcapFile -> bool)
    requires Evicting(files, present, kept, rest, evicted, total, cap, works)
    requires total > cap && rest != [] && works(rest[0])
    ensures total >= rest[0].size
    ensures Evicting(files, present - {rest[0]}, kept, rest[1..], evicted + [rest[0]], total - rest[0].size, cap, works)
  {
    FirstOfRest(rest);
    SumFromFront(rest);
    ElementsSnoc(evicted, rest[0]);
  }

  lemma KeepFirst(files: set<PcapFile>, present: set<PcapFile>, kept: seq<PcapFile>, rest: seq<PcapFile>,
                  evicted: seq<PcapFile>, total: int, cap: nat, works: PcapFile -> bool)
    requires Evicting(files, present, kept, rest, evicted, total, cap, works)
    requires rest != [] && !works(rest[0])
    ensures Evicting(files, present, kept + [rest[0]], rest[1..], evicted, total, cap, works)
  {
    FirstOfRest(rest);
    SumFromFront(rest);
    SumSnoc(kept, rest[0]);
    ElementsSnoc(kept, rest[0]);
  }

  /** Oldest first, until the tracked total fits. */
  method EvictOldest(dir: Directory, files: seq<PcapFile>, cap: nat, works: PcapFile -> bool)
    returns (kept: seq<PcapFile>, rest: seq<PcapFile>, evicted: seq<PcapFile>, total: int)
    requires OldestFirst(files) && Distinct(files) && dir.files == Elements(files)
    modifies dir
    ensures Evicting(Elements(files), dir.files, kept, rest, evicted, total, cap, works)
    ensures total <= cap || rest == []
  {
    total := Sum(Size, files);
    kept, rest, evicted := [], files, [];
    while rest != []
      invariant Evicting(Elements(files), dir.files, kept, rest, evicted, total, cap, works)
      decreases |rest|
    {
      if total <= cap {
        break;
      }
      var f := rest[0];
      var removed := dir.Remove(f, works(f));
      if removed {
        EvictFirst(Elements(files), dir.files + {f}, kept, rest, evicted, total, cap, works);
        total := if total >= f.size then total - f.size else 0;
        evicted := evicted + [f];
      } else {
        KeepFirst(Elements(files), dir.files, kept, rest, evicted, total, cap, works);
        kept := kept + [f];
      }
      rest := rest[1..];
    }
  }

  /** What the age pass leaves: recent files, and old ones that resisted deletion. */
  function AfterAge(listed: seq<PcapFile>, cutoff: int, works: PcapFile -> bool): set<PcapFile> {
    set f | f in listed && !(f.modified < cutoff && works(f))
  }

  /** One clean-up over the listed files. `worksFirst` and `worksThen` say which deletions succeed in the
      age pass and in the eviction pass. */
  method CleanupCaptureFiles(dir: Directory, listed: seq<PcapFile>, cutoff: int, cap: nat,
                             worksFirst: PcapFile -> bool, worksThen: PcapFile -> bool)
    returns (kept: seq<PcapFile>, rest: seq<PcapFile>, evicted: seq<PcapFile>, total: int)
    requires Distinct(listed) && dir.files == Elements(listed)
    modifies dir
    ensures Evicting(AfterAge(listed, cutoff, worksFirst), dir.files, kept, rest, evicted, total, cap, worksThen)
    ensures total <= cap || rest == []
  {
    RemoveExpired(dir, listed, cutoff, worksFirst);
    assert dir.files == AfterAge(listed, cutoff, worksFirst);
    var files := Existing(listed, dir.files);
    ExistingFiles(listed, dir.files);
    assert Elements(files) == dir.files;
    SortSorts(files);
    SortKeepsFiles(files);
    kept, rest, evicted, total := EvictOldest(dir, SortByModified(files), cap, worksThen);
  }

  /** With failing deletions: an old survivor resisted the age pass, nothing recent disappears without
      having been evicted, the tracked total is the size of what remains, and the cap is missed only if
      every remaining file resisted eviction. */
  lemma CleanupOutcome(listed: seq<PcapFile>, cutoff: int, cap: nat, worksFirst: PcapFile -> bool,
                       worksThen: PcapFile -> bool, survivors: set<PcapFile>, kept: seq<PcapFile>,
                       rest: seq<PcapFile>, evicted: seq<PcapFile>, total: int)
    requires Evicting(AfterAge(listed, cutoff, worksFirst), survivors, kept, rest, evicted, total, cap, worksThen)
    requires total <= cap || rest == []
    ensures forall f :: f in survivors ==> f in listed && (f.modified < cutoff ==> !worksFirst(f))
    ensures forall f :: f in listed && f.modified >= cutoff ==> (f in survivors <==> f !in evicted)
    ensures total == Sum(Size, kept + rest) && Elements(kept + rest) == survivors
    ensures total > cap ==> forall f :: f in survivors ==> !worksThen(f)
  {
    SumAppend(Size, kept, rest);
    assert forall f :: f in evicted <==> f in Elements(evicted);
    assert forall f :: f in listed && f.modified >= cutoff ==> f in AfterAge(listed, cutoff, worksFirst);
  }

  function Existing(listed: seq<PcapFile>, present: set<PcapFile>): seq<PcapFile> {
    if listed == [] then []
    else Existing(listed[..|listed| - 1], present)
         + if listed[|listed| - 1] in present then [listed[|listed| - 1]] else []
  }

  lemma {:induction false} ExistingFiles(listed: seq<PcapFile>, present: set<PcapFile>)
    requires Distinct(listed)
    ensures Elements(Existing(listed, present)) == Elements(listed) * present
    ensures Distinct(Existing(listed, present))
  {
    if listed != [] {
      var init, last := listed[..|listed| - 1], listed[|listed| - 1];
      ExistingFiles(init, present);
      ElementsSnoc(init, last);
      ElementsSnoc(Existing(init, present), last);
      assert listed == init + [last];
      assert last !in init;
      assert last in Existing(init, present) ==> last in Elements(Existing(init, present));
      assert Existing(listed, present) == if last in present then Existing(init, present) + [last] else Existing(init, present);
    }
  }

  /** When every deletion works: nothing older than the cutoff survives, the survivors fit the cap, no
      evicted file is newer than a survivor, and evicting one file fewer would not have been enough. */
  lemma CleanupWhenDeletionsWork(listed: seq<PcapFile>, cutoff: int, cap: nat, works: PcapFile -> bool,
                                 survivors: set<PcapFile>, kept: seq<PcapFile>, rest: seq<PcapFile>,
                                 evicted: seq<PcapFile>, total: int)
    requires forall f :: works(f)
    requires Evicting(AfterAge(listed, cutoff, works), survivors, kept, rest, evicted, total, cap, works)
    requires total <= cap || rest == []
    ensures forall f :: f in survivors ==> f.modified >= cutoff
    ensures survivors == Elements(rest) && Sum(Size, rest) <= cap
    ensures forall f, g :: f in evicted && g in survivors ==> f.modified <= g.modified
    ensures evicted != [] ==> Sum(Size, rest) + evicted[|evicted| - 1].size > cap
  {
  }
}
