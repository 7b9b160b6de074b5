/** What the inode table promises over whole runs, told from the actions: which inode a
    reference is to, what is on the disk and in the hands of who holds the lock, when an inode
    becomes free, and when iput leaves one behind. */
module InodeTableLaws {
  import opened Files
  import opened InodeTable
  import opened InodeTableProof

  lemma StepOfRun(states: seq<State>, acts: seq<Action>, t: nat)
    requires IsRun(states, acts) && t < |acts|
    ensures Inv(states[t]) && Next(states[t], acts[t], states[t + 1]) && Inv(states[t + 1])
  {
    var u := t + 1;
    RunKeeps(states, acts, t);
    RunKeeps(states, acts, u);
    assert Next(states[t], acts[t], states[u]);
  }

  // ---------- references ----------

  datatype Option<T> = None | Some(value: T)

  /** The inode to which r is a reference, from iget or idup until it is put. */
  ghost function KeyOf(acts: seq<Action>, t: nat, r: nat): Option<Key>
    requires t <= |acts|
  {
    if t == 0 then None else
      var a := acts[t - 1];
      if (a.DoGetFound? || a.DoGetRecycled?) && a.r == r then Some(a.k)
      else if a.DoDup? && a.r1 == r then KeyOf(acts, t - 1, a.r)
      else if (a.DoPutRef? || a.DoDropRef?) && a.r == r then None
      else KeyOf(acts, t - 1, r)
  }

  ghost predicate RefersTo(s: State, r: nat, k: Key) {
    r in s.refs && s.refs[r].e < |s.table| && s.table[s.refs[r].e].key == k
  }

  ghost function KeyIn(s: State, r: nat): Option<Key> {
    if r in s.refs && s.refs[r].e < |s.table| then Some(s.table[s.refs[r].e].key) else None
  }

  lemma KeyStep(s: State, a: Action, s': State, r: nat)
    requires Inv(s) && Next(s, a, s')
    ensures KeyIn(s', r) == if (a.DoGetFound? || a.DoGetRecycled?) && a.r == r then Some(a.k)
                            else if a.DoDup? && a.r1 == r then KeyIn(s, a.r)
                            else if (a.DoPutRef? || a.DoDropRef?) && a.r == r then None
                            else KeyIn(s, r)
  {
    if r in s.refs {
      assert RefOk(s, r);
      HasRef(s.refs, r);
      assert EntryOk(s, s.refs[r].e);
    }
  }

  lemma {:induction false} RefsFollow(states: seq<State>, acts: seq<Action>, t: nat, r: nat)
    requires IsRun(states, acts) && t < |states|
    ensures KeyIn(states[t], r) == KeyOf(acts, t, r)
    decreases t
  {
    if t > 0 {
      StepOfRun(states, acts, t - 1);
      RefsFollow(states, acts, t - 1, r);
      if acts[t - 1].DoDup? {
        RefsFollow(states, acts, t - 1, acts[t - 1].r);
      }
      KeyStep(states[t - 1], acts[t - 1], states[t], r);
    }
  }

  // ---------- the disk, and the inode in hand ----------

  /** Inode k on the disk d at first: what iupdate, iput's clearing or ialloc last wrote. */
  ghost function OnDisk(d: map<Key, Inode>, acts: seq<Action>, t: nat, k: Key): Inode
    requires t <= |acts| && k in d
    decreases t, 0
  {
    if t == 0 then d[k] else
      var a, before := acts[t - 1], OnDisk(d, acts, t - 1, k);
      if a.DoWriteBack? && KeyOf(acts, t - 1, a.r) == Some(k) then InHand(d, acts, t - 1, a.r, before)
      else if a.DoClearOnDisk? && KeyOf(acts, t - 1, a.r) == Some(k) then a.ip
      else if a.DoAllocate? && a.k == k then a.ip
      else before
  }

  /** The in-memory inode of who has it locked by r: as last changed, or as ilock found it on
      the disk. */
  ghost function InHand(d: map<Key, Inode>, acts: seq<Action>, t: nat, r: nat, otherwise: Inode): Inode
    requires t <= |acts|
    decreases t, 1
  {
    if t == 0 then otherwise else
      var a := acts[t - 1];
      if a.DoChange? && a.r == r then a.ip
      else if a.DoLockInode? && a.r == r then
        match KeyOf(acts, t - 1, r) {
          case Some(k) => if k in d then OnDisk(d, acts, t - 1, k) else otherwise
          case None => otherwise
        }
      else InHand(d, acts, t - 1, r, otherwise)
  }

  ghost function Hand(s: State, r: nat): Option<Inode> {
    if Holds(s, r) then Some(s.table[s.refs[r].e].ip) else None
  }

  lemma DiskStep(s: State, a: Action, s': State, k: Key)
    requires Inv(s) && Next(s, a, s') && k in s.disk
    ensures k in s'.disk
    ensures a.DoWriteBack? ==> Hand(s, a.r).Some?
    ensures s'.disk[k] == if a.DoWriteBack? && KeyIn(s, a.r) == Some(k) then Hand(s, a.r).value
                          else if a.DoClearOnDisk? && KeyIn(s, a.r) == Some(k) then a.ip
                          else if a.DoAllocate? && a.k == k then a.ip
                          else s.disk[k]
  {
  }

  lemma HandStep(s: State, a: Action, s': State, r: nat)
    requires Inv(s) && Next(s, a, s') && Holds(s', r)
    ensures if a == DoChange(r, Hand(s', r).value) then true
            else if a == DoLockInode(r)
            then KeyIn(s, r).Some? && KeyIn(s, r).value in s.disk && Hand(s', r).value == s.disk[KeyIn(s, r).value]
            else Holds(s, r) && Hand(s', r) == Hand(s, r) && !(a.DoChange? && a.r == r)
  {
    var e := s'.refs[r].e;
    assert e < |s.table| && EntryOk(s, e);
    if a.DoClearOnDisk? || a.DoInvalidate? {
      assert RefOk(s, a.r);
    }
    if r in s.refs {
      HasRef(s.refs, r);
    }
  }

  /** The disk, and the inode in hand, are what the actions say. */
  lemma {:induction false} DiskFollows(states: seq<State>, acts: seq<Action>, t: nat, k: Key)
    requires IsRun(states, acts) && t < |states| && k in states[0].disk
    ensures k in states[t].disk && states[t].disk[k] == OnDisk(states[0].disk, acts, t, k)
    decreases t, 0
  {
    if t > 0 {
      var s, a := states[t - 1], acts[t - 1];
      StepOfRun(states, acts, t - 1);
      DiskFollows(states, acts, t - 1, k);
      DiskStep(s, a, states[t], k);
      if a.DoWriteBack? || a.DoClearOnDisk? {
        RefsFollow(states, acts, t - 1, a.r);
      }
      if a.DoWriteBack? {
        HandFollows(states, acts, t - 1, a.r, s.disk[k]);
      }
    }
  }

  lemma {:induction false} HandFollows(states: seq<State>, acts: seq<Action>, t: nat, r: nat, otherwise: Inode)
    requires IsRun(states, acts) && t < |states| && Holds(states[t], r)
    ensures Hand(states[t], r) == Some(InHand(states[0].disk, acts, t, r, otherwise))
    decreases t, 1
  {
    if t > 0 {
      var s, a := states[t - 1], acts[t - 1];
      StepOfRun(states, acts, t - 1);
      HandStep(s, a, states[t], r);
      if a == DoLockInode(r) {
        RefsFollow(states, acts, t - 1, r);
        SameInodes(states, acts, t - 1);
        DiskFollows(states, acts, t - 1, KeyIn(s, r).value);
      } else if !(a.DoChange? && a.r == r) {
        HandFollows(states, acts, t - 1, r, otherwise);
      }
    }
  }

  lemma {:induction false} SameInodes(states: seq<State>, acts: seq<Action>, t: nat)
    requires IsRun(states, acts) && t < |states|
    ensures states[t].disk.Keys == states[0].disk.Keys
  {
    if t > 0 {
      SameInodes(states, acts, t - 1);
      StepOfRun(states, acts, t - 1);
      SameKeys(states[t - 1], acts[t - 1], states[t]);
    }
  }

  lemma SameKeys(s: State, a: Action, s': State)
    requires Next(s, a, s')
    ensures s'.disk.Keys == s.disk.Keys
  {
  }

  // ---------- when an inode becomes free ----------

  /** r is the only reference to k. */
  ghost predicate Sole(s: State, r: nat, k: Key) {
    RefersTo(s, r, k) && forall q {:trigger RefersTo(s, q, k)} :: RefersTo(s, q, k) ==> q == r
  }

  lemma SoleRef(s: State, r: nat)
    requires Inv(s) && r in s.refs
    ensures s.refs[r].e < |s.table|
    ensures s.table[s.refs[r].e].ref == 1 <==> Sole(s, r, s.table[s.refs[r].e].key)
  {
    assert RefOk(s, r);
    var e := s.refs[r].e;
    var k := s.table[e].key;
    assert EntryOk(s, e);
    HasRef(s.refs, r);
    if s.table[e].ref == 1 {
      forall q | RefersTo(s, q, k)
        ensures q == r
      {
        SameEntry(s, q, r);
        OnlyRef(s.refs, e, r, q);
      }
    }
    if Sole(s, r, k) {
      forall q | q in RefsTo(s.refs, e)
        ensures q == r
      {
        assert RefersTo(s, q, k);
      }
      assert r in RefsTo(s.refs, e);
      assert RefsTo(s.refs, e) == {r};
    }
  }

  /** References to one inode are references to one entry. */
  lemma SameEntry(s: State, q: nat, r: nat)
    requires Inv(s) && q in s.refs && r in s.refs && KeyIn(s, q) == KeyIn(s, r) && KeyIn(s, q).Some?
    ensures s.refs[q].e == s.refs[r].e
  {
    HasRef(s.refs, q);
    HasRef(s.refs, r);
    assert EntryOk(s, s.refs[q].e) && EntryOk(s, s.refs[r].e) && KeysApart(s, s.refs[q].e, s.refs[r].e);
  }

  /** Only iput's clearing frees an inode on the disk, and only one without links: an inode with
      links stays. */
  lemma FreedHasNoLinks(states: seq<State>, acts: seq<Action>, t: nat, k: Key)
    requires IsRun(states, acts) && t < |acts| && k in states[t].disk && k in states[t + 1].disk
    requires states[t].disk[k].kind != 0 && states[t + 1].disk[k].kind == 0
    ensures states[t].disk[k].nlink == 0
    ensures acts[t].DoClearOnDisk? && RefersTo(states[t], acts[t].r, k)
  {
    StepOfRun(states, acts, t);
    FreeingStep(states[t], acts[t], states[t + 1], k);
  }

  lemma FreeingStep(s: State, a: Action, s': State, k: Key)
    requires Inv(s) && Next(s, a, s') && k in s.disk && k in s'.disk && s.disk[k].kind != 0 && s'.disk[k].kind == 0
    ensures s.disk[k].nlink == 0 && a.DoClearOnDisk? && RefersTo(s, a.r, k) && s.refs[a.r].stage.Freeing?
  {
    DiskStep(s, a, s', k);
    if a.DoClearOnDisk? {
      assert RefOk(s, a.r) && EntryOk(s, s.refs[a.r].e);
    }
  }

  lemma StageStep(s: State, a: Action, s': State, r: nat)
    requires Inv(s) && Next(s, a, s') && r in s'.refs
    ensures s'.refs[r].stage.Freeing? ==> a == DoBeginFree(r) || (r in s.refs && s.refs[r].stage.Freeing?)
    ensures s'.refs[r].stage.Dropping? ==> a == DoInvalidate(r) || (r in s.refs && s.refs[r].stage.Dropping?)
    ensures a == DoBeginFree(r) ==> r in s.refs && s.refs[r].e < |s.table| && s.table[s.refs[r].e].ref == 1
    ensures a == DoInvalidate(r) ==> s'.refs[r].e < |s'.table| && !s'.table[s'.refs[r].e].valid
  {
  }

  /** Reference q came into being at step v. */
  predicate Comes(a: Action, q: nat) {
    ((a.DoGetFound? || a.DoGetRecycled?) && a.r == q) || (a.DoDup? && a.r1 == q)
  }

  /** iget finds inode k in the table. */
  predicate Asks(a: Action, k: Key) { a.DoGetFound? && a.k == k }

  /** While r refers to k, a new reference to k comes by iget from the table or by idup. */
  lemma Arrival(s: State, a: Action, s': State, r: nat, k: Key, q: nat)
    requires Inv(s) && Next(s, a, s') && RefersTo(s, r, k) && !s.refs[r].stage.Using? && Comes(a, q) &&
             RefersTo(s', q, k)
    ensures if a.DoDup? then a.r != r && RefersTo(s, a.r, k) else Asks(a, k)
  {
    KeyStep(s, a, s', q);
    assert RefOk(s, r) && EntryOk(s, s.refs[r].e);
    HasRef(s.refs, r);
    assert Referenced(s, s.refs[r].e, k);
  }

  /** While iput is freeing the inode, the references besides its own are those that came since
      it began, when there was none. */
  lemma {:induction false} FreeingBegan(states: seq<State>, acts: seq<Action>, t: nat, r: nat) returns (u: nat)
    requires IsRun(states, acts) && t < |states| && r in states[t].refs && states[t].refs[r].stage.Freeing?
    ensures KeyIn(states[t], r).Some?
    ensures u < t && acts[u] == DoBeginFree(r) && Sole(states[u], r, KeyIn(states[t], r).value)
    ensures forall q {:trigger RefersTo(states[t], q, KeyIn(states[t], r).value)} ::
              q != r && RefersTo(states[t], q, KeyIn(states[t], r).value) ==>
                && (exists v {:trigger acts[v]} :: u < v < t && Comes(acts[v], q))
                && (exists v {:trigger acts[v]} :: u < v < t && Asks(acts[v], KeyIn(states[t], r).value))
  {
    RunKeeps(states, acts, t);
    assert RefOk(states[t], r);
    if t > 0 {
      var b := t - 1;
      var s, a, s' := states[b], acts[b], states[t];
      StepOfRun(states, acts, b);
      StageStep(s, a, s', r);
      KeyStep(s, a, s', r);
      var k := KeyIn(s', r).value;
      if a == DoBeginFree(r) {
        u := b;
        SoleRef(s, r);
      } else {
        u := FreeingBegan(states, acts, b, r);
      }
      forall q | q != r && RefersTo(s', q, k)
        ensures exists v {:trigger acts[v]} :: u < v < t && Comes(acts[v], q)
        ensures exists v {:trigger acts[v]} :: u < v < t && Asks(acts[v], k)
      {
        KeyStep(s, a, s', q);
        if Comes(a, q) {
          Arrival(s, a, s', r, k, q);
          assert u < b < t && Comes(acts[b], q);
          if a.DoDup? {
            assert RefersTo(s, a.r, k) && a.r != r;
          } else {
            assert Asks(acts[b], k);
          }
        } else {
          assert RefersTo(s, q, k);
        }
      }
    }
  }

  /** When iput writes the freed inode, its reference is the only one exactly if every reference
      that came since it began has gone again; when it began, it was. So if no iget asks for
      the inode meanwhile, nobody has a reference to a freed inode. */
  lemma FreedIsUnreferenced(states: seq<State>, acts: seq<Action>, t: nat, r: nat, ip: Inode) returns (k: Key, u: nat)
    requires IsRun(states, acts) && t < |acts| && acts[t] == DoClearOnDisk(r, ip)
    ensures RefersTo(states[t], r, k)
    ensures u < t && acts[u] == DoBeginFree(r) && Sole(states[u], r, k)
    ensures Sole(states[t], r, k) <==>
            forall v, q {:trigger Comes(acts[v], q)} :: u < v < t && Comes(acts[v], q) && q != r ==>
              !RefersTo(states[t], q, k)
    ensures (forall v {:trigger acts[v]} :: u < v < t ==> !Asks(acts[v], k)) ==> Sole(states[t], r, k)
  {
    StepOfRun(states, acts, t);
    assert RefOk(states[t], r);
    k := KeyIn(states[t], r).value;
    u := FreeingBegan(states, acts, t, r);
  }

  // ---------- iput ----------

  /** iput of the last reference to a valid entry leaves the inode on disk only if it has links. */
  lemma LastPutKeepsLinked(states: seq<State>, acts: seq<Action>, t: nat, r: nat) returns (k: Key)
    requires IsRun(states, acts) && t < |acts| && acts[t] == DoPutRef(r)
    ensures RefersTo(states[t], r, k) && k in states[t].disk && states[t + 1].disk == states[t].disk
    ensures Sole(states[t], r, k) && states[t].table[states[t].refs[r].e].valid ==> states[t].disk[k].nlink != 0
  {
    StepOfRun(states, acts, t);
    var s := states[t];
    k := s.table[s.refs[r].e].key;
    PutSees(s, r);
  }

  /** What iput sees of the inode is what is on disk, if its reference is the last and valid. */
  lemma PutSees(s: State, r: nat)
    requires Inv(s) && CanPut(s, r)
    ensures var e := s.refs[r].e;
            && s.table[e].key in s.disk && (s.table[e].ref == 1 <==> Sole(s, r, s.table[e].key)) && s.table[e].ref > 0
            && (s.table[e].ref == 1 && s.table[e].valid ==>
                  s.table[e].lock.Unlocked? && s.table[e].ip == s.disk[s.table[e].key])
  {
    var e := s.refs[r].e;
    SoleRef(s, r);
    HasRef(s.refs, r);
    assert EntryOk(s, e);
    if s.table[e].ref == 1 && s.table[e].lock.LockedBy? {
      OnlyRef(s.refs, e, r, s.table[e].lock.r);
    }
  }

  /** iput never has to wait, and it begins to free the inode exactly if it has the only
      reference, the entry is valid and the inode on disk has no links. */
  lemma PutGoesOn(states: seq<State>, acts: seq<Action>, t: nat, r: nat) returns (a: Action, s': State)
    requires IsRun(states, acts) && t < |states| && CanPut(states[t], r) && !states[t].panicked
    ensures Next(states[t], a, s') && (a == DoPutRef(r) || a == DoBeginFree(r))
    ensures var s := states[t];
            var x := s.table[s.refs[r].e];
            x.key in s.disk && (a == DoBeginFree(r) <==> Sole(s, r, x.key) && x.valid && s.disk[x.key].nlink == 0)
  {
    RunKeeps(states, acts, t);
    var s := states[t];
    PutSees(s, r);
    var e := s.refs[r].e;
    var x := s.table[e];
    if x.ref == 1 && x.valid && x.ip.nlink == 0 {
      a, s' := DoBeginFree(r), Put(s, e, x.(lock := LockedBy(r))).(refs := s.refs[r := Ref(e, Freeing)]);
    } else {
      a, s' := DoPutRef(r), Put(s, e, x.(ref := x.ref - 1)).(refs := s.refs - {r});
    }
  }

  /** ilock on the entry of r. */
  ghost predicate Relocks(s: State, a: Action, r: nat) {
    a.DoLockInode? && a.r in s.refs && r in s.refs && s.refs[a.r].e == s.refs[r].e
  }

  lemma ValidStep(s: State, a: Action, s': State, r: nat)
    requires Inv(s) && Next(s, a, s') && r in s.refs && r in s'.refs && s.refs[r].stage.Dropping?
    requires s.refs[r].e < |s.table|
    requires forall q {:trigger s.refs[q]} :: q in s.refs && s.refs[q].e == s.refs[r].e && !s.refs[q].stage.Using? ==>
               q == r
    ensures s'.refs[r].e == s.refs[r].e && s'.refs[r].e < |s'.table|
    ensures s'.table[s.refs[r].e].valid <==> s.table[s.refs[r].e].valid || Relocks(s, a, r)
  {
    HasRef(s.refs, r);
    assert EntryOk(s, s.refs[r].e);
  }

  lemma OneFreesStep(s: State, a: Action, s': State, q: nat, r: nat)
    requires Inv(s) && Next(s, a, s') && q in s'.refs && r in s'.refs && s'.refs[q].e == s'.refs[r].e
    requires !s'.refs[q].stage.Using? && !s'.refs[r].stage.Using? && q != r
    ensures q in s.refs && r in s.refs && s.refs[q].e == s.refs[r].e
    ensures !s.refs[q].stage.Using? && !s.refs[r].stage.Using?
  {
    if a.DoBeginFree? && (a.r == q || a.r == r) {
      assert EntryOk(s, s.refs[a.r].e);
      OnlyRef(s.refs, s.refs[a.r].e, a.r, if a.r == q then r else q);
    }
  }

  /** Two threads do not free one entry at a time. */
  lemma {:induction false} OneFrees(states: seq<State>, acts: seq<Action>, t: nat, q: nat, r: nat)
    requires IsRun(states, acts) && t < |states| && q in states[t].refs && r in states[t].refs
    requires states[t].refs[q].e == states[t].refs[r].e
    requires !states[t].refs[q].stage.Using? && !states[t].refs[r].stage.Using?
    ensures q == r
  {
    if q != r && t > 0 {
      StepOfRun(states, acts, t - 1);
      OneFreesStep(states[t - 1], acts[t - 1], states[t], q, r);
      OneFrees(states, acts, t - 1, q, r);
    }
  }

  /** When iput drops its reference after freeing the inode, the entry is valid again exactly if
      somebody has locked it since. */
  lemma {:induction false} DroppingBegan(states: seq<State>, acts: seq<Action>, t: nat, r: nat) returns (u: nat)
    requires IsRun(states, acts) && t < |states| && r in states[t].refs && states[t].refs[r].stage.Dropping?
    ensures states[t].refs[r].e < |states[t].table|
    ensures u < t && acts[u] == DoInvalidate(r)
    ensures states[t].table[states[t].refs[r].e].valid <==>
            exists v {:trigger acts[v]} :: u < v < t && Relocks(states[v], acts[v], r)
  {
    RunKeeps(states, acts, t);
    assert RefOk(states[t], r);
    if t > 0 {
      var b := t - 1;
      var s, a, s' := states[b], acts[b], states[t];
      StepOfRun(states, acts, b);
      StageStep(s, a, s', r);
      if a == DoInvalidate(r) {
        u := b;
      } else {
        u := DroppingBegan(states, acts, b, r);
        forall q | q in s.refs && s.refs[q].e == s.refs[r].e && !s.refs[q].stage.Using?
          ensures q == r
        {
          OneFrees(states, acts, b, q, r);
        }
        ValidStep(s, a, s', r);
        if Relocks(s, a, r) {
          assert u < b < t && Relocks(states[b], acts[b], r);
        }
      }
    }
  }

  /** So an inode that is left without references and links was taken again meanwhile, or had
      not been read in: if the last reference goes with a valid entry and no links on disk, then
      somebody has locked the entry since iput had freed the inode. */
  lemma LeftWithoutLinks(states: seq<State>, acts: seq<Action>, t: nat, k: Key) returns (u: nat, v: nat)
    requires IsRun(states, acts) && t < |acts| && (acts[t].DoPutRef? || acts[t].DoDropRef?)
    requires Sole(states[t], acts[t].r, k) && states[t].table[states[t].refs[acts[t].r].e].valid
    requires k in states[t].disk && states[t].disk[k].nlink == 0
    ensures acts[t].DoDropRef? && u < v < t
    ensures acts[u] == DoInvalidate(acts[t].r) && Relocks(states[v], acts[v], acts[t].r)
  {
    StepOfRun(states, acts, t);
    var r := acts[t].r;
    if acts[t].DoPutRef? {
      var k' := LastPutKeepsLinked(states, acts, t, r);
      assert false;
    }
    u := DroppingBegan(states, acts, t, r);
    v :| u < v < t && Relocks(states[v], acts[v], r);
  }

  // ---------- the rest of the table ----------

  /** In every run an inode has at most one entry with references, ref counts them, and an
      unlocked valid entry equals the inode on disk. */
  lemma TableIsCache(states: seq<State>, acts: seq<Action>, t: nat, e: nat)
    requires IsRun(states, acts) && t < |states| && e < |states[t].table|
    ensures var s := states[t];
            && s.table[e].ref == |RefsTo(s.refs, e)|
            && (s.table[e].ref > 0 ==>
                  forall f: nat {:trigger Referenced(s, f, s.table[e].key)} :: Referenced(s, f, s.table[e].key) ==>
                    f == e)
            && (s.table[e].ref > 0 && s.table[e].valid && s.table[e].lock.Unlocked? ==>
                  s.table[e].key in s.disk && s.table[e].ip == s.disk[s.table[e].key])
  {
    RunKeeps(states, acts, t);
    var s := states[t];
    assert EntryOk(s, e);
    forall f: nat | Referenced(s, f, s.table[e].key) && s.table[e].ref > 0
      ensures f == e
    {
      assert KeysApart(s, e, f);
    }
  }

  /** What ilock hands out is the inode that was last written to the disk, also if ialloc took
      the number again while iput was freeing it. */
  lemma LockShowsDisk(states: seq<State>, acts: seq<Action>, t: nat, r: nat) returns (k: Key)
    requires IsRun(states, acts) && t < |acts| && acts[t] == DoLockInode(r)
    ensures KeyOf(acts, t, r) == Some(k) && k in states[0].disk && Hand(states[t + 1], r).Some?
    ensures Hand(states[t + 1], r).value == OnDisk(states[0].disk, acts, t, k)
  {
    StepOfRun(states, acts, t);
    RefsFollow(states, acts, t, r);
    SameInodes(states, acts, t);
    k := KeyIn(states[t], r).value;
    HandStep(states[t], acts[t], states[t + 1], r);
    DiskFollows(states, acts, t, k);
  }

  // ---------- panics ----------

  lemma OnlyThesePanic(s: State, a: Action, s': State)
    requires Next(s, a, s')
    ensures a.DoGetPanics? ==> s'.panicked
    ensures !a.DoGetPanics? && !a.DoLockInode? ==> !s'.panicked
  {
  }

  /** ilock panics if and only if the inode that it was asked for is free on the disk; iget only
      as below, and nothing else does. */
  lemma PanicsRightly(states: seq<State>, acts: seq<Action>, t: nat)
    requires IsRun(states, acts) && t < |acts|
    ensures acts[t].DoLockInode? ==>
              KeyOf(acts, t, acts[t].r).Some? && KeyOf(acts, t, acts[t].r).value in states[0].disk
    ensures states[t + 1].panicked <==>
            || acts[t].DoGetPanics?
            || (acts[t].DoLockInode? &&
                OnDisk(states[0].disk, acts, t, KeyOf(acts, t, acts[t].r).value).kind == 0)
  {
    StepOfRun(states, acts, t);
    OnlyThesePanic(states[t], acts[t], states[t + 1]);
    if acts[t].DoLockInode? {
      var s, r := states[t], acts[t].r;
      RefsFollow(states, acts, t, r);
      SameInodes(states, acts, t);
      DiskFollows(states, acts, t, KeyIn(s, r).value);
      assert EntryOk(s, s.refs[r].e) && RefOk(s, r);
      HasRef(s.refs, r);
    }
  }

  lemma RefersToReferenced(s: State, r: nat, k: Key)
    requires Inv(s) && RefersTo(s, r, k)
    ensures Referenced(s, s.refs[r].e, k)
  {
    assert RefOk(s, r) && EntryOk(s, s.refs[r].e);
    HasRef(s.refs, r);
  }

  /** Somebody has a reference to the inode in entry e. */
  ghost predicate InUse(s: State, e: nat) {
    e < |s.table| && exists r :: RefersTo(s, r, s.table[e].key)
  }

  /** iget panics only if nobody has a reference to the inode and every entry has one. */
  lemma IgetPanicsRightly(states: seq<State>, acts: seq<Action>, t: nat, k: Key)
    requires IsRun(states, acts) && t < |acts| && acts[t] == DoGetPanics(k)
    ensures forall r {:trigger RefersTo(states[t], r, k)} :: !RefersTo(states[t], r, k)
    ensures forall e: nat {:trigger InUse(states[t], e)} :: e < |states[t].table| ==> InUse(states[t], e)
  {
    StepOfRun(states, acts, t);
    var s := states[t];
    forall r
      ensures !RefersTo(s, r, k)
    {
      if RefersTo(s, r, k) {
        RefersToReferenced(s, r, k);
      }
    }
    forall e: nat | e < |s.table|
      ensures InUse(s, e)
    {
      assert EntryOk(s, e) && s.table[e].ref > 0;
      var r :| r in RefsTo(s.refs, e);
      assert RefersTo(s, r, s.table[e].key);
    }
  }

  // ---------- two runs ----------

  lemma Extend(states: seq<State>, acts: seq<Action>, a: Action, s': State)
    requires IsRun(states, acts) && Next(states[|acts|], a, s')
    ensures IsRun(states + [s'], acts + [a])
  {
    var states', acts' := states + [s'], acts + [a];
    forall t, u | 0 <= t < |acts'| && u == t + 1
      ensures Next(states'[t], acts'[t], states'[u])
    {
      if t < |acts| {
        assert Next(states[t], acts[t], states[u]);
      }
    }
  }

  /** Thread r reads in the inode without links that has entry 0 for itself, and begins to free it. */
  lemma BeginsToFree(k: Key, ip: Inode) returns (states: seq<State>, acts: seq<Action>)
    requires ip.kind != 0 && ip.nlink == 0
    ensures IsRun(states, acts) && |acts| == 4
    ensures states[4] == State([Entry(k, 1, true, ip, LockedBy(0))], map[0 := Ref(0, Freeing)], map[k := ip], false)
  {
    var s0 := State([Entry(k, 0, false, ip, Unlocked)], map[], map[k := ip], false);
    var s1 := State([Entry(k, 1, false, ip, Unlocked)], map[0 := Ref(0, Using)], map[k := ip], false);
    var s2 := State([Entry(k, 1, true, ip, LockedBy(0))], map[0 := Ref(0, Using)], map[k := ip], false);
    var s3 := State([Entry(k, 1, true, ip, Unlocked)], map[0 := Ref(0, Using)], map[k := ip], false);
    var s4 := State([Entry(k, 1, true, ip, LockedBy(0))], map[0 := Ref(0, Freeing)], map[k := ip], false);
    states, acts := [s0], [];
    assert forall f: nat :: !Referenced(s0, f, k);
    Extend(states, acts, DoGetRecycled(0, k, 0), s1);
    states, acts := states + [s1], acts + [DoGetRecycled(0, k, 0)];
    Extend(states, acts, DoLockInode(0), s2);
    states, acts := states + [s2], acts + [DoLockInode(0)];
    Extend(states, acts, DoUnlockInode(0), s3);
    states, acts := states + [s3], acts + [DoUnlockInode(0)];
    Extend(states, acts, DoBeginFree(0), s4);
    states, acts := states + [s4], acts + [DoBeginFree(0)];
  }

  /** An iget while iput is freeing the inode gets a reference to it. */
  lemma FreedWhileReferenced(k: Key, ip: Inode, cleared: Inode) returns (states: seq<State>, acts: seq<Action>)
    requires ip.kind != 0 && ip.nlink == 0 && cleared.kind == 0
    ensures IsRun(states, acts) && |acts| == 6 && acts[5] == DoClearOnDisk(0, cleared)
    ensures RefersTo(states[5], 0, k) && RefersTo(states[5], 1, k)
  {
    states, acts := BeginsToFree(k, ip);
    var both := map[0 := Ref(0, Freeing), 1 := Ref(0, Using)];
    var s5 := State([Entry(k, 2, true, ip, LockedBy(0))], both, map[k := ip], false);
    var s6 := State([Entry(k, 2, true, cleared, LockedBy(0))], both[0 := Ref(0, Cleared)], map[k := cleared], false);
    assert Referenced(states[4], 0, k);
    Extend(states, acts, DoGetFound(1, k, 0), s5);
    states, acts := states + [s5], acts + [DoGetFound(1, k, 0)];
    Extend(states, acts, DoClearOnDisk(0, cleared), s6);
    states, acts := states + [s6], acts + [DoClearOnDisk(0, cleared)];
  }

  /** An inode that nobody references and no directory links, and that is not free: ialloc took
      the number again, and its only user put it, before iput dropped its own reference. */
  lemma LeftBehind(k: Key, ip: Inode, cleared: Inode, again: Inode) returns (states: seq<State>, acts: seq<Action>)
    requires ip.kind != 0 && ip.nlink == 0 && cleared.kind == 0 && again.kind != 0 && again.nlink == 0
    ensures IsRun(states, acts) && |acts| == 12 && acts[11] == DoDropRef(0)
    ensures states[12].refs == map[] && !states[12].panicked && states[12].disk == map[k := again]
  {
    states, acts := BeginsToFree(k, ip);
    var alone, both := map[0 := Ref(0, Dropping)], map[0 := Ref(0, Dropping), 1 := Ref(0, Using)];
    var s5 := State([Entry(k, 1, true, cleared, LockedBy(0))], map[0 := Ref(0, Cleared)], map[k := cleared], false);
    Extend(states, acts, DoClearOnDisk(0, cleared), s5);
    states, acts := states + [s5], acts + [DoClearOnDisk(0, cleared)];
    var s6 := State([Entry(k, 1, false, cleared, Unlocked)], alone, map[k := cleared], false);
    Extend(states, acts, DoInvalidate(0), s6);
    states, acts := states + [s6], acts + [DoInvalidate(0)];
    var s7 := State([Entry(k, 1, false, cleared, Unlocked)], alone, map[k := again], false);
    Extend(states, acts, DoAllocate(k, again), s7);
    states, acts := states + [s7], acts + [DoAllocate(k, again)];
    states, acts := TakenAndPut(states, acts, k, cleared, again, both);
    var s12 := State([Entry(k, 0, true, again, Unlocked)], map[], map[k := again], false);
    Extend(states, acts, DoDropRef(0), s12);
    states, acts := states + [s12], acts + [DoDropRef(0)];
  }

  lemma TakenAndPut(states: seq<State>, acts: seq<Action>, k: Key, cleared: Inode, again: Inode, both: map<nat, Ref>)
    returns (states': seq<State>, acts': seq<Action>)
    requires IsRun(states, acts) && |acts| == 7 && again.kind != 0
    requires both == map[0 := Ref(0, Dropping), 1 := Ref(0, Using)]
    requires states[7] == State([Entry(k, 1, false, cleared, Unlocked)], map[0 := Ref(0, Dropping)], map[k := again],
                                false)
    ensures IsRun(states', acts') && |acts'| == 11
    ensures states'[11] == State([Entry(k, 1, true, again, Unlocked)], map[0 := Ref(0, Dropping)], map[k := again],
                                 false)
  {
    states', acts' := states, acts;
    var s8 := State([Entry(k, 2, false, cleared, Unlocked)], both, map[k := again], false);
    assert Referenced(states[7], 0, k);
    Extend(states', acts', DoGetFound(1, k, 0), s8);
    states', acts' := states' + [s8], acts' + [DoGetFound(1, k, 0)];
    var s9 := State([Entry(k, 2, true, again, LockedBy(1))], both, map[k := again], false);
    Extend(states', acts', DoLockInode(1), s9);
    states', acts' := states' + [s9], acts' + [DoLockInode(1)];
    var s10 := State([Entry(k, 2, true, again, Unlocked)], both, map[k := again], false);
    Extend(states', acts', DoUnlockInode(1), s10);
    states', acts' := states' + [s10], acts' + [DoUnlockInode(1)];
    var s11 := State([Entry(k, 1, true, again, Unlocked)], map[0 := Ref(0, Dropping)], map[k := again], false);
    assert both - {1} == map[0 := Ref(0, Dropping)];
    Extend(states', acts', DoPutRef(1), s11);
    states', acts' := states' + [s11], acts' + [DoPutRef(1)];
  }
}
