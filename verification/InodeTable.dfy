/** The table of in-use inodes of fs.c, as steps of any number of threads. A section under
    itable.lock is one step; an inode's sleep lock is part of its entry. Each reference has
    a name, so that it is clear who holds which lock. */
module InodeTable {
  import opened Files

  datatype Key = Key(dev: nat, inum: nat)

  datatype Lock = Unlocked | LockedBy(r: nat)

  datatype Entry = Entry(key: Key, ref: nat, valid: bool, ip: Inode, lock: Lock)

  /** How far iput has come with freeing the inode: it has locked the entry; it has written
      type 0 to the disk; it has cleared valid and unlocked. */
  datatype Stage = Using | Freeing | Cleared | Dropping

  datatype Ref = Ref(e: nat, stage: Stage)

  /** disk: the logical on-disk inodes. panicked: "iget: no inodes" or "ilock: no type". */
  datatype State = State(table: seq<Entry>, refs: map<nat, Ref>, disk: map<Key, Inode>, panicked: bool)

  ghost function RefsTo(refs: map<nat, Ref>, e: nat): set<nat> {
    set r | r in refs && refs[r].e == e
  }

  // ---------- what every reachable state satisfies ----------

  ghost predicate EntryOk(s: State, e: nat)
    requires e < |s.table|
  {
    var x := s.table[e];
    && x.ref == |RefsTo(s.refs, e)|
    && (x.ref > 0 ==> x.key in s.disk)
    && (x.lock.LockedBy? ==> x.lock.r in s.refs && s.refs[x.lock.r].e == e)
    && (x.ref > 0 && x.valid && x.lock.Unlocked? ==> x.ip == s.disk[x.key] && x.ip.kind != 0)
    && (x.lock.LockedBy? && x.lock.r in s.refs && s.refs[x.lock.r].stage.Freeing? ==>
          x.valid && x.key in s.disk && x.ip == s.disk[x.key] && x.ip.kind != 0 && x.ip.nlink == 0)
  }

  predicate RefOk(s: State, r: nat)
    requires r in s.refs
  {
    && s.refs[r].e < |s.table|
    && (s.refs[r].stage.Freeing? || s.refs[r].stage.Cleared? ==> s.table[s.refs[r].e].lock == LockedBy(r))
    && (s.refs[r].stage.Dropping? ==> s.table[s.refs[r].e].lock != LockedBy(r))
  }

  predicate KeysApart(s: State, e: nat, f: nat)
    requires e < |s.table| && f < |s.table|
  {
    e != f && s.table[e].ref > 0 && s.table[f].ref > 0 ==> s.table[e].key != s.table[f].key
  }

  ghost predicate Inv(s: State) {
    && (forall e: nat {:trigger EntryOk(s, e)} :: e < |s.table| ==> EntryOk(s, e))
    && (forall r {:trigger RefOk(s, r)} :: r in s.refs ==> RefOk(s, r))
    && (forall e: nat, f: nat {:trigger KeysApart(s, e, f)} :: e < |s.table| && f < |s.table| ==> KeysApart(s, e, f))
  }

  // ---------- steps ----------

  function Put(s: State, e: nat, x: Entry): (s': State)
    requires e < |s.table|
    ensures |s'.table| == |s.table|
  {
    s.(table := s.table[e := x])
  }

  predicate Referenced(s: State, e: nat, k: Key) {
    e < |s.table| && s.table[e].ref > 0 && s.table[e].key == k
  }

  /** iget finds the inode in the table. */
  ghost predicate GetFound(s: State, r: nat, k: Key, e: nat, s': State) {
    !s.panicked && r !in s.refs && Referenced(s, e, k)
    && s' == Put(s, e, s.table[e].(ref := s.table[e].ref + 1)).(refs := s.refs[r := Ref(e, Using)])
  }

  /** iget recycles the first entry without references. */
  ghost predicate GetRecycled(s: State, r: nat, k: Key, e: nat, s': State) {
    !s.panicked && r !in s.refs && k in s.disk
    && (forall f: nat {:trigger Referenced(s, f, k)} :: !Referenced(s, f, k))
    && e < |s.table| && s.table[e].ref == 0 && (forall f {:trigger s.table[f]} :: 0 <= f < e ==> s.table[f].ref > 0)
    && s' == Put(s, e, s.table[e].(key := k, ref := 1, valid := false)).(refs := s.refs[r := Ref(e, Using)])
  }

  ghost predicate GetPanics(s: State, k: Key, s': State) {
    !s.panicked && (forall f: nat {:trigger Referenced(s, f, k)} :: !Referenced(s, f, k))
    && (forall f {:trigger s.table[f]} :: 0 <= f < |s.table| ==> s.table[f].ref > 0)
    && s' == s.(panicked := true)
  }

  ghost predicate Dup(s: State, r: nat, r': nat, s': State) {
    !s.panicked && r in s.refs && s.refs[r].stage.Using? && r' !in s.refs &&
    var e := s.refs[r].e;
    e < |s.table| && s' == Put(s, e, s.table[e].(ref := s.table[e].ref + 1)).(refs := s.refs[r' := Ref(e, Using)])
  }

  /** ilock: the entry is read in if it is not valid. */
  ghost predicate LockInode(s: State, r: nat, s': State) {
    !s.panicked && r in s.refs && s.refs[r].stage.Using? &&
    var e := s.refs[r].e;
    e < |s.table| && s.table[e].lock.Unlocked? && s.table[e].key in s.disk &&
    var x := s.table[e].(lock := LockedBy(r));
    if x.valid then s' == Put(s, e, x)
    else s' == Put(s, e, x.(valid := true, ip := s.disk[x.key])).(panicked := s.disk[x.key].kind == 0)
  }

  predicate Holds(s: State, r: nat) {
    r in s.refs && s.refs[r].stage.Using? && s.refs[r].e < |s.table| && s.table[s.refs[r].e].lock == LockedBy(r)
  }

  /** The holder of the lock changes the inode in memory. */
  ghost predicate Change(s: State, r: nat, ip: Inode, s': State) {
    !s.panicked && Holds(s, r) && s' == Put(s, s.refs[r].e, s.table[s.refs[r].e].(ip := ip))
  }

  /** iupdate. */
  ghost predicate WriteBack(s: State, r: nat, s': State) {
    !s.panicked && Holds(s, r) && s.table[s.refs[r].e].ip.kind != 0 && s.table[s.refs[r].e].key in s.disk
    && s' == s.(disk := s.disk[s.table[s.refs[r].e].key := s.table[s.refs[r].e].ip])
  }

  /** iunlock, by a holder that has called iupdate after its changes. */
  ghost predicate UnlockInode(s: State, r: nat, s': State) {
    !s.panicked && Holds(s, r) &&
    var x := s.table[s.refs[r].e];
    x.key in s.disk && x.valid && x.ip == s.disk[x.key] && x.ip.kind != 0 &&
    s' == Put(s, s.refs[r].e, x.(lock := Unlocked))
  }

  /** The caller of iput has a reference and has unlocked it. */
  predicate CanPut(s: State, r: nat) {
    r in s.refs && s.refs[r].stage.Using? && s.refs[r].e < |s.table| && s.table[s.refs[r].e].lock != LockedBy(r)
  }

  predicate Last(x: Entry) { x.ref == 1 && x.valid && x.ip.nlink == 0 }

  /** iput drops a reference and no more. */
  ghost predicate PutRef(s: State, r: nat, s': State) {
    !s.panicked && CanPut(s, r) &&
    var e := s.refs[r].e;
    !Last(s.table[e]) && s.table[e].ref > 0
    && s' == Put(s, e, s.table[e].(ref := s.table[e].ref - 1)).(refs := s.refs - {r})
  }

  /** iput finds the last reference to an inode without links, and locks the entry. */
  ghost predicate BeginFree(s: State, r: nat, s': State) {
    !s.panicked && CanPut(s, r) &&
    var e := s.refs[r].e;
    Last(s.table[e]) && s.table[e].lock.Unlocked?
    && s' == Put(s, e, s.table[e].(lock := LockedBy(r))).(refs := s.refs[r := Ref(e, Freeing)])
  }

  /** itrunc, ip->type = 0 and iupdate: the inode is free on disk. */
  ghost predicate ClearOnDisk(s: State, r: nat, ip: Inode, s': State) {
    !s.panicked && r in s.refs && s.refs[r].stage.Freeing? && ip.kind == 0 &&
    var e := s.refs[r].e;
    e < |s.table| && s.table[e].key in s.disk
    && s' == Put(s, e, s.table[e].(ip := ip)).(refs := s.refs[r := Ref(e, Cleared)],
                                               disk := s.disk[s.table[e].key := ip])
  }

  /** ip->valid = 0 and releasesleep. */
  ghost predicate Invalidate(s: State, r: nat, s': State) {
    !s.panicked && r in s.refs && s.refs[r].stage.Cleared? &&
    var e := s.refs[r].e;
    e < |s.table| &&
    s' == Put(s, e, s.table[e].(valid := false, lock := Unlocked)).(refs := s.refs[r := Ref(e, Dropping)])
  }

  ghost predicate DropRef(s: State, r: nat, s': State) {
    !s.panicked && r in s.refs && s.refs[r].stage.Dropping? &&
    var e := s.refs[r].e;
    e < |s.table| && s.table[e].ref > 0
    && s' == Put(s, e, s.table[e].(ref := s.table[e].ref - 1)).(refs := s.refs - {r})
  }

  /** ialloc takes an inode that is free on disk; its iget is a step of its own. */
  ghost predicate Allocate(s: State, k: Key, ip: Inode, s': State) {
    !s.panicked && k in s.disk && s.disk[k].kind == 0 && ip.kind != 0 && s' == s.(disk := s.disk[k := ip])
  }

  // ---------- iget's search ----------

  datatype Search = Found(e: nat) | Empty(e: nat) | Full

  /** iget's scan: the entry of the inode, or else the first entry without references. */
  method FindEntry(table: seq<Entry>, k: Key) returns (r: Search)
    ensures r.Found? ==> r.e < |table| && table[r.e].ref > 0 && table[r.e].key == k
    ensures !r.Found? ==> forall f :: 0 <= f < |table| ==> !(table[f].ref > 0 && table[f].key == k)
    ensures r.Empty? ==> r.e < |table| && table[r.e].ref == 0 && forall f :: 0 <= f < r.e ==> table[f].ref > 0
    ensures r.Full? ==> forall f :: 0 <= f < |table| ==> table[f].ref > 0
  {
    r := Full;
    for i := 0 to |table|
      invariant r.Full? || r.Empty?
      invariant forall f :: 0 <= f < i ==> !(table[f].ref > 0 && table[f].key == k)
      invariant r.Empty? ==> r.e < i && table[r.e].ref == 0 && forall f :: 0 <= f < r.e ==> table[f].ref > 0
      invariant r.Full? ==> forall f :: 0 <= f < i ==> table[f].ref > 0
    {
      if table[i].ref > 0 && table[i].key == k {
        return Found(i);
      }
      if r.Full? && table[i].ref == 0 {
        r := Empty(i);
      }
    }
  }

  /** iget by a new reference r. */
  method Iget(s: State, r: nat, k: Key) returns (s': State, ghost e: nat)
    requires !s.panicked && r !in s.refs && k in s.disk
    ensures GetFound(s, r, k, e, s') || GetRecycled(s, r, k, e, s') || GetPanics(s, k, s')
  {
    var found := FindEntry(s.table, k);
    e := 0;
    match found {
      case Found(x) =>
        e := x;
        s' := Put(s, x, s.table[x].(ref := s.table[x].ref + 1)).(refs := s.refs[r := Ref(x, Using)]);
      case Empty(x) =>
        e := x;
        s' := Put(s, x, s.table[x].(key := k, ref := 1, valid := false)).(refs := s.refs[r := Ref(x, Using)]);
      case Full =>
        s' := s.(panicked := true);
    }
  }
}
