/** Every step on the inode table keeps the invariant; the table is a cache of the disk in all
    runs. */
module InodeTableProof {
  import opened Files
  import opened InodeTable

  // ---------- counting references ----------

  lemma RefAdded(refs: map<nat, Ref>, r: nat, x: Ref, e: nat)
    requires r !in refs
    ensures |RefsTo(refs[r := x], e)| == |RefsTo(refs, e)| + if x.e == e then 1 else 0
  {
    assert RefsTo(refs[r := x], e) == if x.e == e then RefsTo(refs, e) + {r} else RefsTo(refs, e);
  }

  lemma RefDropped(refs: map<nat, Ref>, r: nat, e: nat)
    requires r in refs
    ensures |RefsTo(refs - {r}, e)| == |RefsTo(refs, e)| - if refs[r].e == e then 1 else 0
  {
    assert RefsTo(refs - {r}, e) == RefsTo(refs, e) - {r};
    assert refs[r].e == e ==> r in RefsTo(refs, e);
    assert refs[r].e != e ==> RefsTo(refs, e) - {r} == RefsTo(refs, e);
  }

  lemma RefMoved(refs: map<nat, Ref>, r: nat, x: Ref, e: nat)
    requires r in refs && x.e == refs[r].e
    ensures RefsTo(refs[r := x], e) == RefsTo(refs, e)
  {
  }

  lemma RefsAdded(refs: map<nat, Ref>, r: nat, x: Ref)
    requires r !in refs
    ensures forall e {:trigger RefsTo(refs[r := x], e)} ::
              |RefsTo(refs[r := x], e)| == |RefsTo(refs, e)| + if x.e == e then 1 else 0
  {
    forall e
      ensures |RefsTo(refs[r := x], e)| == |RefsTo(refs, e)| + if x.e == e then 1 else 0
    {
      RefAdded(refs, r, x, e);
    }
  }

  lemma RefsDropped(refs: map<nat, Ref>, r: nat)
    requires r in refs
    ensures forall e {:trigger RefsTo(refs - {r}, e)} ::
              |RefsTo(refs - {r}, e)| == |RefsTo(refs, e)| - if refs[r].e == e then 1 else 0
  {
    forall e
      ensures |RefsTo(refs - {r}, e)| == |RefsTo(refs, e)| - if refs[r].e == e then 1 else 0
    {
      RefDropped(refs, r, e);
    }
  }

  lemma RefsMoved(refs: map<nat, Ref>, r: nat, x: Ref)
    requires r in refs && x.e == refs[r].e
    ensures forall e {:trigger RefsTo(refs[r := x], e)} :: RefsTo(refs[r := x], e) == RefsTo(refs, e)
  {
    forall e
      ensures RefsTo(refs[r := x], e) == RefsTo(refs, e)
    {
      RefMoved(refs, r, x, e);
    }
  }

  /** With a single reference, it is the only one. */
  lemma OnlyRef(refs: map<nat, Ref>, e: nat, r: nat, q: nat)
    requires |RefsTo(refs, e)| == 1 && r in refs && refs[r].e == e && q in refs && refs[q].e == e
    ensures q == r
  {
    var all := RefsTo(refs, e);
    assert r in all && q in all;
    assert |all - {r}| == 0;
    assert all - {r} == {};
  }

  lemma HasRef(refs: map<nat, Ref>, r: nat)
    requires r in refs
    ensures |RefsTo(refs, refs[r].e)| > 0
  {
    assert r in RefsTo(refs, refs[r].e);
  }

  lemma LockedHasRef(s: State, e: nat)
    requires Inv(s) && e < |s.table|
    ensures s.table[e].lock.LockedBy? ==> s.table[e].ref > 0
  {
    assert EntryOk(s, e);
    if s.table[e].lock.LockedBy? {
      HasRef(s.refs, s.table[e].lock.r);
    }
  }

  // ---------- steps ----------

  /** A step that leaves the size of the table and, mostly, entry e: it is enough to look at one
      entry, one reference and one pair of entries at a time. */
  lemma Frame(s: State, e: nat, s': State)
    requires Inv(s) && |s'.table| == |s.table|
    requires forall x: nat {:trigger EntryOk(s', x)} :: x < |s.table| && Known(s, e, x) ==> EntryOk(s', x)
    requires forall q {:trigger RefOk(s', q)} :: q in s'.refs && (q in s.refs ==> RefOk(s, q)) ==> RefOk(s', q)
    requires forall x: nat, y: nat {:trigger KeysApart(s', x, y)} ::
               x < |s.table| && y < |s.table| && KeysApart(s, x, y) ==> KeysApart(s', x, y)
    ensures Inv(s')
  {
    forall x: nat | x < |s.table|
      ensures Known(s, e, x)
    {
      LockedHasRef(s, x);
      assert EntryOk(s, x) && (e < |s.table| ==> EntryOk(s, e) && KeysApart(s, e, x));
    }
    forall q | q in s'.refs
      ensures RefOk(s', q)
    {
      assert q in s.refs ==> RefOk(s, q);
    }
    forall x: nat, y: nat | x < |s.table| && y < |s.table|
      ensures KeysApart(s', x, y)
    {
      assert KeysApart(s, x, y);
    }
  }

  /** What the invariant says of entry x, beside entry e. */
  ghost predicate Known(s: State, e: nat, x: nat)
    requires x < |s.table|
  {
    && EntryOk(s, x) && (s.table[x].lock.LockedBy? ==> s.table[x].ref > 0)
    && (e < |s.table| ==> EntryOk(s, e) && KeysApart(s, e, x))
  }

  lemma GetFoundKeeps(s: State, r: nat, k: Key, e: nat, s': State)
    requires Inv(s) && GetFound(s, r, k, e, s')
    ensures Inv(s')
  {
    RefsAdded(s.refs, r, Ref(e, Using));
    Frame(s, e, s');
  }

  lemma GetRecycledKeeps(s: State, r: nat, k: Key, e: nat, s': State)
    requires Inv(s) && GetRecycled(s, r, k, e, s')
    ensures Inv(s')
  {
    RefsAdded(s.refs, r, Ref(e, Using));
    forall x: nat | x < |s.table|
      ensures !(s.table[x].ref > 0 && s.table[x].key == k)
    {
      assert !Referenced(s, x, k);
    }
    Frame(s, e, s');
  }

  lemma GetPanicsKeeps(s: State, k: Key, s': State)
    requires Inv(s) && GetPanics(s, k, s')
    ensures Inv(s')
  {
    Frame(s, 0, s');
  }

  lemma DupKeeps(s: State, r: nat, r1: nat, s': State)
    requires Inv(s) && Dup(s, r, r1, s')
    ensures Inv(s')
  {
    HasRef(s.refs, r);
    RefsAdded(s.refs, r1, Ref(s.refs[r].e, Using));
    assert RefOk(s, r) && EntryOk(s, s.refs[r].e);
    Frame(s, s.refs[r].e, s');
  }

  lemma LockInodeKeeps(s: State, r: nat, s': State)
    requires Inv(s) && LockInode(s, r, s')
    ensures Inv(s')
  {
    var e := s.refs[r].e;
    assert RefOk(s, r) && EntryOk(s, e);
    Frame(s, e, s');
  }

  lemma ChangeKeeps(s: State, r: nat, ip: Inode, s': State)
    requires Inv(s) && Change(s, r, ip, s')
    ensures Inv(s')
  {
    var e := s.refs[r].e;
    assert RefOk(s, r) && EntryOk(s, e);
    Frame(s, e, s');
  }

  lemma WriteBackKeeps(s: State, r: nat, s': State)
    requires Inv(s) && WriteBack(s, r, s')
    ensures Inv(s')
  {
    var e := s.refs[r].e;
    assert RefOk(s, r) && EntryOk(s, e);
    HasRef(s.refs, r);
    Frame(s, e, s');
  }

  lemma UnlockInodeKeeps(s: State, r: nat, s': State)
    requires Inv(s) && UnlockInode(s, r, s')
    ensures Inv(s')
  {
    var e := s.refs[r].e;
    assert RefOk(s, r) && EntryOk(s, e);
    Frame(s, e, s');
  }

  lemma PutRefKeeps(s: State, r: nat, s': State)
    requires Inv(s) && PutRef(s, r, s')
    ensures Inv(s')
  {
    var e := s.refs[r].e;
    assert RefOk(s, r) && EntryOk(s, e);
    RefsDropped(s.refs, r);
    Frame(s, e, s');
  }

  lemma BeginFreeKeeps(s: State, r: nat, s': State)
    requires Inv(s) && BeginFree(s, r, s')
    ensures Inv(s')
  {
    var e := s.refs[r].e;
    assert RefOk(s, r) && EntryOk(s, e);
    RefsMoved(s.refs, r, s'.refs[r]);
    Frame(s, e, s');
  }

  lemma ClearOnDiskKeeps(s: State, r: nat, ip: Inode, s': State)
    requires Inv(s) && ClearOnDisk(s, r, ip, s')
    ensures Inv(s')
  {
    var e := s.refs[r].e;
    assert RefOk(s, r) && EntryOk(s, e);
    HasRef(s.refs, r);
    RefsMoved(s.refs, r, s'.refs[r]);
    Frame(s, e, s');
  }

  lemma InvalidateKeeps(s: State, r: nat, s': State)
    requires Inv(s) && Invalidate(s, r, s')
    ensures Inv(s')
  {
    var e := s.refs[r].e;
    assert RefOk(s, r) && EntryOk(s, e);
    RefsMoved(s.refs, r, s'.refs[r]);
    Frame(s, e, s');
  }

  lemma DropRefKeeps(s: State, r: nat, s': State)
    requires Inv(s) && DropRef(s, r, s')
    ensures Inv(s')
  {
    var e := s.refs[r].e;
    assert RefOk(s, r) && EntryOk(s, e);
    RefsDropped(s.refs, r);
    Frame(s, e, s');
  }

  lemma AllocateKeeps(s: State, k: Key, ip: Inode, s': State)
    requires Inv(s) && Allocate(s, k, ip, s')
    ensures Inv(s')
  {
    Frame(s, 0, s');
  }

  // ---------- runs ----------

  datatype Action =
    | DoGetFound(r: nat, k: Key, e: nat) | DoGetRecycled(r: nat, k: Key, e: nat) | DoGetPanics(k: Key)
    | DoDup(r: nat, r1: nat) | DoLockInode(r: nat)
    | DoChange(r: nat, ip: Inode) | DoWriteBack(r: nat) | DoUnlockInode(r: nat) | DoPutRef(r: nat) | DoBeginFree(r: nat)
    | DoClearOnDisk(r: nat, ip: Inode) | DoInvalidate(r: nat) | DoDropRef(r: nat) | DoAllocate(k: Key, ip: Inode)

  ghost predicate Next(s: State, a: Action, s': State) {
    match a
    case DoGetFound(r, k, e) => GetFound(s, r, k, e, s')
    case DoGetRecycled(r, k, e) => GetRecycled(s, r, k, e, s')
    case DoGetPanics(k) => GetPanics(s, k, s')
    case DoDup(r, r1) => Dup(s, r, r1, s')
    case DoLockInode(r) => LockInode(s, r, s')
    case DoChange(r, ip) => Change(s, r, ip, s')
    case DoWriteBack(r) => WriteBack(s, r, s')
    case DoUnlockInode(r) => UnlockInode(s, r, s')
    case DoPutRef(r) => PutRef(s, r, s')
    case DoBeginFree(r) => BeginFree(s, r, s')
    case DoClearOnDisk(r, ip) => ClearOnDisk(s, r, ip, s')
    case DoInvalidate(r) => Invalidate(s, r, s')
    case DoDropRef(r) => DropRef(s, r, s')
    case DoAllocate(k, ip) => Allocate(s, k, ip, s')
  }

  lemma NextKeeps(s: State, a: Action, s': State)
    requires Inv(s) && Next(s, a, s')
    ensures Inv(s')
  {
    match a
    case DoGetFound(r, k, e) => GetFoundKeeps(s, r, k, e, s');
    case DoGetRecycled(r, k, e) => GetRecycledKeeps(s, r, k, e, s');
    case DoGetPanics(k) => GetPanicsKeeps(s, k, s');
    case DoDup(r, r1) => DupKeeps(s, r, r1, s');
    case DoLockInode(r) => LockInodeKeeps(s, r, s');
    case DoChange(r, ip) => ChangeKeeps(s, r, ip, s');
    case DoWriteBack(r) => WriteBackKeeps(s, r, s');
    case DoUnlockInode(r) => UnlockInodeKeeps(s, r, s');
    case DoPutRef(r) => PutRefKeeps(s, r, s');
    case DoBeginFree(r) => BeginFreeKeeps(s, r, s');
    case DoClearOnDisk(r, ip) => ClearOnDiskKeeps(s, r, ip, s');
    case DoInvalidate(r) => InvalidateKeeps(s, r, s');
    case DoDropRef(r) => DropRefKeeps(s, r, s');
    case DoAllocate(k, ip) => AllocateKeeps(s, k, ip, s');
  }

  /** No references, no locks. */
  ghost predicate Boot(s: State) {
    s.refs == map[] &&
    forall e {:trigger s.table[e]} :: 0 <= e < |s.table| ==> s.table[e].ref == 0 && s.table[e].lock.Unlocked?
  }

  lemma BootIsOk(s: State)
    requires Boot(s)
    ensures Inv(s)
  {
    forall e: nat | e < |s.table|
      ensures EntryOk(s, e)
    {
      assert s.table[e].ref == 0;
      assert RefsTo(s.refs, e) == {};
    }
    forall e: nat, f: nat | e < |s.table| && f < |s.table|
      ensures KeysApart(s, e, f)
    {
      assert s.table[e].ref == 0;
    }
  }

  ghost predicate IsRun(states: seq<State>, acts: seq<Action>) {
    && |states| == |acts| + 1 && Boot(states[0])
    && forall t, u {:trigger states[t], states[u]} :: 0 <= t < |acts| && u == t + 1 ==>
         Next(states[t], acts[t], states[u])
  }

  lemma {:induction false} RunKeeps(states: seq<State>, acts: seq<Action>, t: nat)
    requires IsRun(states, acts) && t < |states|
    ensures Inv(states[t])
  {
    if t == 0 {
      BootIsOk(states[0]);
    } else {
      var b := t - 1;
      RunKeeps(states, acts, b);
      NextKeeps(states[b], acts[b], states[t]);
    }
  }
}
