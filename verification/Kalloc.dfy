/** kalloc.c under its two locks. ref_counts changes under ref_lock and the free list under
    kmem.lock; kalloc and kfree are each two sections, and threads interleave between them.
    Pages are numbered; the link of a free page is the first word of the page itself. */
module Kalloc {

  /** freelist: 0 is null. next: the first word of each page. ref: ref_counts. */
  datatype Kmem = Kmem(freelist: nat, next: map<nat, nat>, count: int, ref: map<nat, int>)

  /** list: the free pages in order. holds: the page of each right to a page that a caller has.
      pushing: pages whose last holder is between the two sections of kfree. popped: pages
      between the two sections of kalloc. */
  datatype Book = Book(list: seq<nat>, holds: map<nat, nat>, pushing: set<nat>, popped: set<nat>)

  ghost function HoldersOf(holds: map<nat, nat>, p: nat): set<nat> {
    set t | t in holds && holds[t] == p
  }

  ghost predicate Held(holds: map<nat, nat>, p: nat) {
    exists t {:trigger holds[t]} :: t in holds && holds[t] == p
  }

  predicate Distinct(q: seq<nat>) {
    forall i, j :: 0 <= i < j < |q| ==> q[i] != q[j]
  }

  /** The list hangs together: no page twice, and the last link is null. */
  ghost predicate ListOk(k: Kmem, list: seq<nat>) {
    && k.freelist == (if list == [] then 0 else list[0]) && k.count == |list| && Distinct(list)
    && (forall i {:trigger list[i]} :: 0 <= i < |list| ==> list[i] in k.next)
    && (forall i, j {:trigger list[i], list[j]} :: 0 <= i < |list| && j == i + 1 < |list| ==>
          k.next[list[i]] == list[j])
    && (list != [] ==> k.next[list[|list| - 1]] == 0)
  }

  /** A managed page is in exactly one place, and while it is held its count says by how many. */
  ghost predicate PageOk(lo: nat, hi: nat, k: Kmem, b: Book, p: nat) {
    && (p in b.list ==> p !in b.pushing && p !in b.popped)
    && (p in b.pushing ==> p !in b.popped)
    && (p in b.list || p in b.pushing || p in b.popped ==> lo <= p < hi && HoldersOf(b.holds, p) == {})
    && (lo <= p < hi ==> p in k.ref && p in k.next)
    && (lo <= p < hi && p !in b.list && p !in b.pushing && p !in b.popped ==>
          HoldersOf(b.holds, p) != {} && k.ref[p] == |HoldersOf(b.holds, p)|)
  }

  ghost predicate Ok(lo: nat, hi: nat, k: Kmem, b: Book) {
    && 0 < lo && 0 in k.ref && ListOk(k, b.list)
    && (forall p: nat {:trigger PageOk(lo, hi, k, b, p)} :: PageOk(lo, hi, k, b, p))
    && (forall t {:trigger b.holds[t]} :: t in b.holds ==> lo <= b.holds[t] < hi)
  }

  // ---------- lemmas ----------

  lemma HolderAdded(holds: map<nat, nat>, t: nat, q: nat, p: nat)
    requires t !in holds
    ensures HoldersOf(holds[t := q], p) == if p == q then HoldersOf(holds, p) + {t} else HoldersOf(holds, p)
  {
  }

  lemma HolderDropped(holds: map<nat, nat>, t: nat, p: nat)
    requires t in holds
    ensures HoldersOf(holds - {t}, p) == HoldersOf(holds, p) - {t}
    ensures t in HoldersOf(holds, p) <==> p == holds[t]
  {
  }

  /** A page that is held is nowhere else. */
  lemma HeldPage(lo: nat, hi: nat, k: Kmem, b: Book, t: nat)
    requires Ok(lo, hi, k, b) && t in b.holds
    ensures var p := b.holds[t];
            && lo <= p < hi && p in k.ref && p in k.next && p !in b.list && p !in b.pushing && p !in b.popped
            && k.ref[p] == |HoldersOf(b.holds, p)| && t in HoldersOf(b.holds, p) && k.ref[p] > 0
  {
    var p := b.holds[t];
    assert PageOk(lo, hi, k, b, p);
    assert t in HoldersOf(b.holds, p);
  }

  lemma Decremented(lo: nat, hi: nat, k: Kmem, b: Book, t: nat)
    requires Ok(lo, hi, k, b) && t in b.holds && b.holds[t] in k.ref
    ensures var p := b.holds[t];
            var k' := k.(ref := k.ref[p := k.ref[p] - 1]);
            && (k.ref[p] - 1 > 0 <==> Held(b.holds - {t}, p))
            && Ok(lo, hi, k',
                  b.(holds := b.holds - {t}, pushing := if k.ref[p] - 1 > 0 then b.pushing else b.pushing + {p}))
  {
    HeldPage(lo, hi, k, b, t);
    var p := b.holds[t];
    var holders := HoldersOf(b.holds, p);
    var k' := k.(ref := k.ref[p := k.ref[p] - 1]);
    var b' := b.(holds := b.holds - {t}, pushing := if k.ref[p] - 1 > 0 then b.pushing else b.pushing + {p});
    assert |holders - {t}| == k.ref[p] - 1;
    var rest := b.holds - {t};
    if Held(rest, p) {
      var u :| u in rest && rest[u] == p;
      assert u in holders - {t};
    }
    if k.ref[p] - 1 > 0 {
      var u :| u in holders - {t};
      assert rest[u] == p;
    }
    forall q: nat
      ensures PageOk(lo, hi, k', b', q)
    {
      assert PageOk(lo, hi, k, b, q);
      HolderDropped(b.holds, t, q);
    }
    forall u | u in b'.holds
      ensures lo <= b'.holds[u] < hi
    {
      assert b'.holds[u] == b.holds[u];
    }
  }

  lemma Pushed(lo: nat, hi: nat, k: Kmem, b: Book, p: nat)
    requires Ok(lo, hi, k, b) && p in b.pushing
    ensures Ok(lo, hi, k.(next := k.next[p := k.freelist], freelist := p, count := k.count + 1),
               b.(list := [p] + b.list, pushing := b.pushing - {p}))
  {
    assert PageOk(lo, hi, k, b, p);
    var k' := k.(next := k.next[p := k.freelist], freelist := p, count := k.count + 1);
    var b' := b.(list := [p] + b.list, pushing := b.pushing - {p});
    forall i, j | 0 <= i < |b'.list| && j == i + 1 < |b'.list|
      ensures k'.next[b'.list[i]] == b'.list[j]
    {
      if i > 0 {
        var h := i - 1;
        assert b.list[h] == b'.list[i] && b.list[i] == b'.list[j] && b.list[h] in b.list;
      }
    }
    assert b.list != [] ==> b.list[|b.list| - 1] in b.list;
    forall q: nat
      ensures PageOk(lo, hi, k', b', q)
    {
      assert PageOk(lo, hi, k, b, q);
      assert q in b'.list <==> q == p || q in b.list;
    }
  }

  lemma Popped(lo: nat, hi: nat, k: Kmem, b: Book)
    requires Ok(lo, hi, k, b) && k.freelist != 0
    ensures b.list != [] && k.freelist == b.list[0] && k.freelist in k.next && lo <= k.freelist < hi
    ensures Ok(lo, hi, k.(freelist := k.next[k.freelist], count := k.count - 1),
               b.(list := b.list[1..], popped := b.popped + {k.freelist}))
  {
    var p := b.list[0];
    assert p in b.list && PageOk(lo, hi, k, b, p);
    var k' := k.(freelist := k.next[k.freelist], count := k.count - 1);
    var b' := b.(list := b.list[1..], popped := b.popped + {p});
    if |b.list| > 1 {
      assert k.next[b.list[0]] == b.list[1];
    }
    forall i, j | 0 <= i < |b'.list| && j == i + 1 < |b'.list|
      ensures k'.next[b'.list[i]] == b'.list[j]
    {
      var h, l := i + 1, j + 1;
      assert b.list[h] == b'.list[i] && b.list[l] == b'.list[j];
    }
    forall i | 0 <= i < |b'.list|
      ensures b'.list[i] in k'.next
    {
      var h := i + 1;
      assert b'.list[i] == b.list[h];
    }
    forall q: nat
      ensures PageOk(lo, hi, k', b', q)
    {
      assert PageOk(lo, hi, k, b, q);
      assert b.list == [p] + b'.list;
      assert q in b.list <==> q == p || q in b'.list;
    }
  }

  lemma Counted(lo: nat, hi: nat, k: Kmem, b: Book, p: nat, t: nat)
    requires Ok(lo, hi, k, b) && p in b.popped && t !in b.holds
    ensures Ok(lo, hi, k.(ref := k.ref[p := 1]), b.(holds := b.holds[t := p], popped := b.popped - {p}))
  {
    assert PageOk(lo, hi, k, b, p);
    var k', b' := k.(ref := k.ref[p := 1]), b.(holds := b.holds[t := p], popped := b.popped - {p});
    forall q: nat
      ensures PageOk(lo, hi, k', b', q)
    {
      assert PageOk(lo, hi, k, b, q);
      HolderAdded(b.holds, t, p, q);
    }
    forall u | u in b'.holds
      ensures lo <= b'.holds[u] < hi
    {
      assert u != t ==> b'.holds[u] == b.holds[u];
    }
  }

  lemma Incremented(lo: nat, hi: nat, k: Kmem, b: Book, t: nat, u: nat)
    requires Ok(lo, hi, k, b) && t in b.holds && u !in b.holds && b.holds[t] in k.ref
    ensures Ok(lo, hi, k.(ref := k.ref[b.holds[t] := k.ref[b.holds[t]] + 1]), b.(holds := b.holds[u := b.holds[t]]))
  {
    HeldPage(lo, hi, k, b, t);
    var p := b.holds[t];
    var k', b' := k.(ref := k.ref[p := k.ref[p] + 1]), b.(holds := b.holds[u := p]);
    forall q: nat
      ensures PageOk(lo, hi, k', b', q)
    {
      assert PageOk(lo, hi, k, b, q);
      HolderAdded(b.holds, u, p, q);
      assert u !in HoldersOf(b.holds, q);
    }
    forall v | v in b'.holds
      ensures lo <= b'.holds[v] < hi
    {
      assert v != u ==> b'.holds[v] == b.holds[v];
    }
  }

  /** The first word of a page that is not on the list is nobody's link. */
  lemma Scribbled(lo: nat, hi: nat, k: Kmem, b: Book, p: nat, w: nat)
    requires Ok(lo, hi, k, b) && p !in b.list
    ensures Ok(lo, hi, k.(next := k.next[p := w]), b)
  {
    var k' := k.(next := k.next[p := w]);
    forall i | 0 <= i < |b.list|
      ensures b.list[i] in k'.next && k'.next[b.list[i]] == k.next[b.list[i]]
    {
      assert b.list[i] in b.list;
    }
    forall q: nat
      ensures PageOk(lo, hi, k', b, q)
    {
      assert PageOk(lo, hi, k, b, q);
    }
  }

  /** The write to index 0 when memory is out is outside the managed pages. */
  lemma IndexZero(lo: nat, hi: nat, k: Kmem, b: Book)
    requires Ok(lo, hi, k, b)
    ensures Ok(lo, hi, k.(ref := k.ref[0 := 1]), b)
  {
    var k' := k.(ref := k.ref[0 := 1]);
    forall q: nat
      ensures PageOk(lo, hi, k', b, q)
    {
      assert PageOk(lo, hi, k, b, q);
    }
  }

  /** freerange hands out page hi to itself, with count 1. */
  lemma Born(lo: nat, hi: nat, k: Kmem, b: Book, t: nat, w: nat)
    requires Ok(lo, hi, k, b) && t !in b.holds && lo <= hi
    ensures Ok(lo, hi + 1, k.(ref := k.ref[hi := 1], next := k.next[hi := w]), b.(holds := b.holds[t := hi]))
  {
    assert PageOk(lo, hi, k, b, hi);
    Scribbled(lo, hi, k, b, hi, w);
    var k', b', top := k.(ref := k.ref[hi := 1], next := k.next[hi := w]), b.(holds := b.holds[t := hi]), hi + 1;
    forall q: nat
      ensures PageOk(lo, top, k', b', q)
    {
      assert PageOk(lo, hi, k, b, q);
      HolderAdded(b.holds, t, hi, q);
      if q == hi {
        NobodyHolds(b.holds, hi);
      }
    }
    forall v | v in b'.holds
      ensures lo <= b'.holds[v] < hi + 1
    {
      assert v != t ==> b'.holds[v] == b.holds[v];
    }
  }

  lemma NobodyHolds(holds: map<nat, nat>, hi: nat)
    requires forall t {:trigger holds[t]} :: t in holds ==> holds[t] < hi
    ensures HoldersOf(holds, hi) == {}
  {
  }

  // ---------- the allocator ----------

  class Allocator {
    const lo: nat                 // the first page at or above end
    var hi: nat
    var kmem: Kmem
    var book: Book

    ghost predicate Valid()
      reads this
    {
      lo <= hi && Ok(lo, hi, kmem, book)
    }

    constructor (lo: nat)
      requires lo > 0
      ensures Valid() && hi == lo == this.lo && book == Book([], map[], {}, {})
    {
      this.lo, hi := lo, lo;
      kmem, book := Kmem(0, map[], 0, map[0 := 0]), Book([], map[], {}, {});
      new;
      forall p: nat
        ensures PageOk(lo, lo, kmem, book, p)
      {
        assert HoldersOf(book.holds, p) == {};
      }
    }

    /** kref_dec by holder t of page p. */
    method KrefDec(t: nat) returns (n: int)
      requires Valid() && t in book.holds
      modifies `kmem, `book
      ensures Valid()
      ensures n > 0 <==> Held(old(book).holds - {t}, old(book).holds[t])
      ensures kmem.next == old(kmem).next
      ensures book == old(book).(holds := old(book).holds - {t},
                                 pushing := old(book).pushing + if n > 0 then {} else {old(book).holds[t]})
    {
      HeldPage(lo, hi, kmem, book, t);
      Decremented(lo, hi, kmem, book, t);
      var p := book.holds[t];
      n := kmem.ref[p] - 1;
      kmem := kmem.(ref := kmem.ref[p := n]);
      book := book.(holds := book.holds - {t}, pushing := if n > 0 then book.pushing else book.pushing + {p});
    }

    /** kfree's section under kmem.lock. */
    method PushFree(p: nat)
      requires Valid() && p in book.pushing
      modifies `kmem, `book
      ensures Valid() && kmem.count == old(kmem).count + 1
      ensures kmem.next == old(kmem).next[p := if old(book).list == [] then 0 else old(book).list[0]]
      ensures book == old(book).(list := [p] + old(book).list, pushing := old(book).pushing - {p})
    {
      Pushed(lo, hi, kmem, book, p);
      kmem := kmem.(next := kmem.next[p := kmem.freelist]);
      kmem := kmem.(freelist := p, count := kmem.count + 1);
      book := book.(list := [p] + book.list, pushing := book.pushing - {p});
    }

    /** kalloc's section under kmem.lock. */
    method PopFree() returns (r: nat)
      requires Valid()
      modifies `kmem, `book
      ensures Valid() && (r == 0 <==> old(book).list == []) && kmem.next == old(kmem).next
      ensures r == 0 ==> book == old(book)
      ensures r != 0 ==> r == old(book).list[0] && book == old(book).(list := old(book).list[1..],
                                                                      popped := old(book).popped + {r})
    {
      r := kmem.freelist;
      EmptyList(lo, hi, kmem, book);
      if r != 0 {
        Popped(lo, hi, kmem, book);
        kmem := kmem.(freelist := kmem.next[r], count := kmem.count - 1);
        book := book.(list := book.list[1..], popped := book.popped + {r});
      }
    }

    /** kalloc's section under ref_lock: also when r is null, and then it is index 0 that
        changes. */
    method SetRef(r: nat, t: nat)
      requires Valid() && t !in book.holds && (r == 0 || r in book.popped)
      modifies `kmem, `book
      ensures Valid() && kmem.next == old(kmem).next
      ensures book == if r == 0 then old(book)
                      else old(book).(holds := old(book).holds[t := r], popped := old(book).popped - {r})
    {
      if r == 0 {
        IndexZero(lo, hi, kmem, book);
      } else {
        Counted(lo, hi, kmem, book, r, t);
      }
      kmem := kmem.(ref := kmem.ref[r := 1]);
      if r != 0 {
        book := book.(holds := book.holds[t := r], popped := book.popped - {r});
      }
    }

    /** kref_inc: holder t shares its page with a new holder u. */
    method KrefInc(t: nat, u: nat)
      requires Valid() && t in book.holds && u !in book.holds
      modifies `kmem, `book
      ensures Valid() && book == old(book).(holds := old(book).holds[u := old(book).holds[t]])
      ensures kmem.next == old(kmem).next
    {
      HeldPage(lo, hi, kmem, book, t);
      Incremented(lo, hi, kmem, book, t, u);
      var p := book.holds[t];
      kmem := kmem.(ref := kmem.ref[p := kmem.ref[p] + 1]);
      book := book.(holds := book.holds[u := p]);
    }

    /** A store to the first word of a page that is not free: by memset or by a holder. */
    method Scribble(p: nat, w: nat)
      requires Valid() && (p in book.pushing || p in book.popped || p in book.holds.Values)
      modifies `kmem
      ensures Valid() && kmem == old(kmem).(next := old(kmem).next[p := w])
    {
      assert PageOk(lo, hi, kmem, book, p);
      if p in book.holds.Values {
        ghost var t :| t in book.holds && book.holds[t] == p;
        HeldPage(lo, hi, kmem, book, t);
      }
      Scribbled(lo, hi, kmem, book, p, w);
      kmem := kmem.(next := kmem.next[p := w]);
    }

    /** kfree by holder t, with nobody in between: the page goes to the list exactly if t was
        its last holder. The result false is the panic. */
    method Kfree(t: nat, pa: nat) returns (ok: bool)
      requires Valid() && t in book.holds && (pa % 4096 == 0 && lo <= pa / 4096 < hi ==> book.holds[t] == pa / 4096)
      modifies `kmem, `book
      ensures Valid() && (ok <==> pa % 4096 == 0 && lo <= pa / 4096 < hi)
      ensures !ok ==> book == old(book)
      ensures ok ==> && book.holds == old(book).holds - {t} && book.pushing == old(book).pushing
                     && book.popped == old(book).popped
                     && book.list == if Held(book.holds, pa / 4096) then old(book).list
                                     else [pa / 4096] + old(book).list
    {
      if pa % 4096 != 0 || pa / 4096 < lo || pa / 4096 >= hi {
        return false;
      }
      var p := pa / 4096;
      HeldPage(lo, hi, kmem, book, t);
      var n := KrefDec(t);
      if n <= 0 {
        Scribble(p, 0x101_0101_0101_0101);
        PushFree(p);
        assert book.pushing == old(book).pushing;
      }
      ok := true;
    }

    /** kalloc for caller t, with nobody in between: the first free page, with t as its only
        holder, or null if there is none. */
    method Kalloc(t: nat) returns (r: nat)
      requires Valid() && t !in book.holds
      modifies `kmem, `book
      ensures Valid() && (r == 0 <==> old(book).list == [])
      ensures r == 0 ==> book == old(book)
      ensures r != 0 ==> && r == old(book).list[0] && !Held(old(book).holds, r) && book.list == old(book).list[1..]
                         && book.holds == old(book).holds[t := r] && book.pushing == old(book).pushing
                         && book.popped == old(book).popped
      ensures kmem.next == if r == 0 then old(kmem).next else old(kmem).next[r := 0x505_0505_0505_0505]
    {
      r := PopFree();
      if r != 0 {
        FreePageUnheld(lo, hi, old(kmem), old(book), r);
        Scribble(r, 0x505_0505_0505_0505);
      }
      SetRef(r, t);
      assert r != 0 ==> book.popped == old(book).popped;
    }

    /** freerange over n pages: every page ends on the free list. */
    method Freerange(n: nat, junk: nat)
      requires Valid() && book.holds == map[]
      modifies this
      ensures Valid() && hi == old(hi) + n && book.holds == map[]
      ensures book.pushing == old(book).pushing && book.popped == old(book).popped
      ensures forall p {:trigger p in book.list} :: p in book.list <==> p in old(book).list || old(hi) <= p < hi
    {
      for i := 0 to n
        invariant Valid() && hi == old(hi) + i && book.holds == map[]
        invariant book.pushing == old(book).pushing && book.popped == old(book).popped
        invariant forall p {:trigger p in book.list} :: p in book.list <==> p in old(book).list || old(hi) <= p < hi
      {
        Born(lo, hi, kmem, book, 0, junk);
        kmem := kmem.(ref := kmem.ref[hi := 1], next := kmem.next[hi := junk]);
        book := book.(holds := book.holds[0 := hi]);
        hi := hi + 1;
        assert book.holds[0] == hi - 1;
        var ok := Kfree(0, (hi - 1) * 4096);
      }
    }
  }

  lemma FreePageUnheld(lo: nat, hi: nat, k: Kmem, b: Book, p: nat)
    requires Ok(lo, hi, k, b) && p in b.list
    ensures !Held(b.holds, p) && p !in b.popped
  {
    forall t | t in b.holds
      ensures t in HoldersOf(b.holds, b.holds[t])
    {
    }
    assert PageOk(lo, hi, k, b, p);
  }

  lemma EmptyList(lo: nat, hi: nat, k: Kmem, b: Book)
    requires Ok(lo, hi, k, b)
    ensures b.list == [] <==> k.freelist == 0
  {
    if b.list != [] {
      assert k.freelist in b.list && PageOk(lo, hi, k, b, k.freelist);
    }
  }

  // ---------- runs ----------

  datatype Step = Dec(t: nat) | Push(p: nat) | Pop | Ref(r: nat, t: nat) | Share(t: nat, u: nat) | Store(p: nat, w: nat)

  /** What a section does to lists and holders; one that its caller may not enter, nothing. */
  ghost function Then(b: Book, s: Step): Book {
    match s
    case Dec(t) =>
      if t !in b.holds then b
      else b.(holds := b.holds - {t},
              pushing := b.pushing + if Held(b.holds - {t}, b.holds[t]) then {} else {b.holds[t]})
    case Push(p) =>
      if p !in b.pushing then b else b.(list := [p] + b.list, pushing := b.pushing - {p})
    case Pop =>
      if b.list == [] then b else b.(list := b.list[1..], popped := b.popped + {b.list[0]})
    case Ref(r, t) =>
      if t in b.holds || r !in b.popped then b else b.(holds := b.holds[t := r], popped := b.popped - {r})
    case Share(t, u) =>
      if t !in b.holds || u in b.holds then b else b.(holds := b.holds[u := b.holds[t]])
    case Store(_, _) => b
  }

  /** The first words of the pages: stores, and the link of a page that becomes free. */
  ghost function WordsThen(words: map<nat, nat>, b: Book, s: Step): map<nat, nat> {
    match s
    case Push(p) => if p in b.pushing then words[p := if b.list == [] then 0 else b.list[0]] else words
    case Store(p, w) => if p in b.pushing || p in b.popped || p in b.holds.Values then words[p := w] else words
    case _ => words
  }

  ghost function After(b: Book, steps: seq<Step>, i: nat): Book
    requires i <= |steps|
  {
    if i == 0 then b else Then(After(b, steps, i - 1), steps[i - 1])
  }

  ghost function WordsAfter(words: map<nat, nat>, b: Book, steps: seq<Step>, i: nat): map<nat, nat>
    requires i <= |steps|
  {
    if i == 0 then words else WordsThen(WordsAfter(words, b, steps, i - 1), After(b, steps, i - 1), steps[i - 1])
  }

  /** Any interleaving of the sections, by callers that free and share only what they hold: the
      linked list is the list of free pages, the counts are the numbers of holders, and both
      are what the sections in their order make of them. */
  method Run(a: Allocator, steps: seq<Step>)
    requires a.Valid()
    modifies a
    ensures a.Valid() && a.hi == old(a.hi) && a.book == After(old(a.book), steps, |steps|)
    ensures a.kmem.next == WordsAfter(old(a.kmem).next, old(a.book), steps, |steps|)
  {
    for i := 0 to |steps|
      invariant a.Valid() && a.hi == old(a.hi) && a.book == After(old(a.book), steps, i)
      invariant a.kmem.next == WordsAfter(old(a.kmem).next, old(a.book), steps, i)
    {
      Section(a, steps[i]);
    }
  }

  method Section(a: Allocator, s: Step)
    requires a.Valid()
    modifies a
    ensures a.Valid() && a.hi == old(a.hi) && a.book == Then(old(a.book), s)
    ensures a.kmem.next == WordsThen(old(a.kmem).next, old(a.book), s)
  {
    match s {
      case Dec(t) =>
        if t in a.book.holds {
          var n := a.KrefDec(t);
        }
      case Push(p) =>
        if p in a.book.pushing {
          a.PushFree(p);
        }
      case Pop =>
        EmptyList(a.lo, a.hi, a.kmem, a.book);
        var r := a.PopFree();
      case Ref(r, t) =>
        assert PageOk(a.lo, a.hi, a.kmem, a.book, 0);
        if t !in a.book.holds && (r == 0 || r in a.book.popped) {
          a.SetRef(r, t);
        }
      case Share(t, u) =>
        if t in a.book.holds && u !in a.book.holds {
          a.KrefInc(t, u);
        }
      case Store(p, w) =>
        if p in a.book.pushing || p in a.book.popped || p in a.book.holds.Values {
          a.Scribble(p, w);
        }
    }
  }
}
