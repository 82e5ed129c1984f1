/** A thread's pool of small objects. Only the owner allocates; it frees into a private
    list, all others push onto a public list that the owner empties at once. When the
    owner leaves it marks the public list dead, and the last one who still had an
    object frees the pool. One event is one load, exchange, compare-exchange, write
    of a link, counting or freeing. */
module SmallObjectPool {

  type Obj = nat

  datatype Ptr = Null | Dead | To(o: Obj)

  /** The owner: outside, about to grab the public list in `allocate_impl`, or in the
      phases of `destroy`. */
  datatype Owner =
    | Idle | Grab
    | CleanPrivate(list: Ptr, removed: nat) | Mark | CleanPublic(list: Ptr, removed: nat) | Subtract
    | FreePool | Gone

  /** `deallocate_impl` of another thread. */
  datatype Freer = Load | Link(seen: Ptr) | Cas(seen: Ptr) | Release | CountUp

  /** Where an object is; bookkeeping. */
  datatype Place = User | Freeing | Private | Public | Cleaning | Released

  /** `users` are the objects handed out, `freeing` those that other threads are giving
      back, each with its phase in `freer`; `closers` are those whose freeing thread
      is to free the pool. `privates`, `publics` and `cleaning` are the lists that the
      pointers lead through, `place` tells where each object is: bookkeeping. */
  datatype State = State(
    next: map<Obj, Ptr>, private: Ptr, public: Ptr, privateCounter: int, publicCounter: int,
    owner: Owner, users: set<Obj>, freeing: set<Obj>, freer: map<Obj, Freer>, closers: set<Obj>, poolFrees: nat,
    privates: seq<Obj>, publics: seq<Obj>, cleaning: seq<Obj>, place: map<Obj, Place>)

  datatype Event =
    | Allocate(unused: Obj)
    | OwnerStep
    | FreeLocal(o: Obj)
    | FreeForeign(o: Obj)
    | FreerStep(o: Obj)
    | Close(o: Obj)
    | Destroy

  const Init := State(map[], Null, Null, 0, 0, Idle, {}, {}, map[], {}, 0, [], [], [], map[])

  function NextOf(s: State, o: Obj): Ptr { if o in s.next then s.next[o] else Null }

  function PhaseOf(s: State, o: Obj): Freer { if o in s.freer then s.freer[o] else Load }

  function PlaceOf(place: map<Obj, Place>, o: Obj): Place { if o in place then place[o] else Released }

  function Rest(q: seq<Obj>): seq<Obj> { if q == [] then [] else q[1..] }

  /** The places of the objects of a list change together. */
  function MoveAll(place: map<Obj, Place>, q: seq<Obj>, p: Place): map<Obj, Place> {
    map o | o in place :: if o in q then p else place[o]
  }

  /** An object goes to a user. */
  function Hand(s: State, o: Obj): State {
    s.(users := s.users + {o}, place := s.place[o := User])
  }

  function StepAllocate(s: State, unused: Obj): State {
    if s.private.To? then Hand(s.(private := NextOf(s, s.private.o), privates := Rest(s.privates)), s.private.o)
    else if s.public != Null then s.(owner := Grab)
    else Hand(s.(privateCounter := s.privateCounter + 1), unused)
  }

  function StepOwner(s: State): State {
    match s.owner
    case Idle => s
    case Grab =>
      if s.public.To? then
        Hand(s.(public := Null, private := NextOf(s, s.public.o), owner := Idle, publics := [],
                privates := Rest(s.publics), place := MoveAll(s.place, s.publics, Private)), s.public.o)
      else s
    case CleanPrivate(list, n) =>
      if list.To? then Clean(s, list.o, CleanPrivate(NextOf(s, list.o), n + 1))
      else s.(privateCounter := s.privateCounter - n, owner := Mark)
    case Mark =>
      s.(public := Dead, owner := CleanPublic(s.public, 0), cleaning := s.publics, publics := [],
         place := MoveAll(s.place, s.publics, Cleaning))
    case CleanPublic(list, n) =>
      if list.To? then Clean(s, list.o, CleanPublic(NextOf(s, list.o), n + 1))
      else s.(privateCounter := s.privateCounter - n, owner := Subtract)
    case Subtract =>
      var c := s.publicCounter - s.privateCounter;
      s.(publicCounter := c, owner := if c == 0 then FreePool else Gone)
    case FreePool => s.(poolFrees := s.poolFrees + 1, owner := Gone)
    case Gone => s
  }

  /** `cleanup_list` releases one object. */
  function Clean(s: State, o: Obj, owner: Owner): State {
    s.(owner := owner, cleaning := Rest(s.cleaning), place := s.place[o := Released])
  }

  function Phase(s: State, o: Obj, f: Freer): State { s.(freer := s.freer[o := f]) }

  /** The freeing thread looks at a value of the public list. */
  function Looked(s: State, o: Obj, seen: Ptr): State {
    Phase(s, o, if seen == Dead then Release else Link(seen))
  }

  function StepFreer(s: State, o: Obj): State {
    match PhaseOf(s, o)
    case Load => Looked(s, o, s.public)
    case Link(seen) => Phase(s.(next := s.next[o := seen]), o, Cas(seen))
    case Cas(seen) =>
      if s.public == seen then
        s.(public := To(o), publics := [o] + s.publics, freeing := s.freeing - {o}, place := s.place[o := Public])
      else Looked(s, o, s.public)
    case Release => Phase(s.(place := s.place[o := Released]), o, CountUp)
    case CountUp =>
      var s' := s.(publicCounter := s.publicCounter + 1, freeing := s.freeing - {o});
      if s.publicCounter + 1 == 0 then s'.(closers := s.closers + {o}) else s'
  }

  predicate Enabled(s: State, e: Event) {
    match e
    case Allocate(unused) => s.owner == Idle && unused !in s.place
    case OwnerStep => s.owner != Idle && s.owner != Gone
    case FreeLocal(o) => s.owner == Idle && o in s.users
    case FreeForeign(o) => o in s.users
    case FreerStep(o) => o in s.freeing
    case Close(o) => o in s.closers
    case Destroy => s.owner == Idle
  }

  function Next(s: State, e: Event): State
    requires Enabled(s, e)
  {
    match e
    case Allocate(unused) => StepAllocate(s, unused)
    case OwnerStep => StepOwner(s)
    case FreeLocal(o) =>
      s.(next := s.next[o := s.private], private := To(o), users := s.users - {o},
         privates := [o] + s.privates, place := s.place[o := Private])
    case FreeForeign(o) =>
      s.(users := s.users - {o}, freeing := s.freeing + {o}, freer := s.freer[o := Load], place := s.place[o := Freeing])
    case FreerStep(o) => StepFreer(s, o)
    case Close(o) => s.(closers := s.closers - {o}, poolFrees := s.poolFrees + 1)
    case Destroy =>
      s.(owner := CleanPrivate(s.private, 0), cleaning := s.privates, privates := [],
         place := MoveAll(s.place, s.privates, Cleaning))
  }

  predicate CanRun(s: State, es: seq<Event>)
    decreases |es|
  {
    es == [] || (Enabled(s, es[0]) && CanRun(Next(s, es[0]), es[1..]))
  }

  function Run(s: State, es: seq<Event>): State
    requires CanRun(s, es)
    decreases |es|
  {
    if es == [] then s else Run(Next(s, es[0]), es[1..])
  }

  // ------------------------------------------------------------ invariant

  function PtrAt(q: seq<Obj>, i: nat): Ptr { if i < |q| then To(q[i]) else Null }

  /** The pointers from `p` on lead through `q`. */
  ghost predicate Chain(next: map<Obj, Ptr>, p: Ptr, q: seq<Obj>) {
    && p == PtrAt(q, 0)
    && (forall i :: 0 <= i < |q| ==> q[i] in next && next[q[i]] == PtrAt(q, i + 1))
    && (forall i, j :: 0 <= i < j < |q| ==> q[i] != q[j])
  }

  /** The objects of the list are those with this place. */
  ghost predicate AreAt(place: map<Obj, Place>, q: seq<Obj>, p: Place) {
    forall o :: o in q <==> o in place && place[o] == p
  }

  predicate InUse(o: Owner) { o == Idle || o == Grab }

  /** The public list has not been marked dead yet. */
  predicate Open(o: Owner) { InUse(o) || o.CleanPrivate? || o == Mark }

  predicate Over(o: Owner) { o == FreePool || o == Gone }

  /** The list the owner is cleaning up starts here. */
  function CleanFrom(o: Owner): Ptr {
    match o case CleanPrivate(p, _) => p case CleanPublic(p, _) => p case _ => Null
  }

  function Removed(o: Owner): nat {
    match o case CleanPrivate(_, n) => n case CleanPublic(_, n) => n case _ => 0
  }

  ghost predicate ListsOk(s: State) {
    && (if InUse(s.owner) then Chain(s.next, s.private, s.privates) else s.privates == [])
    && (if Open(s.owner) then Chain(s.next, s.public, s.publics) else s.public == Dead && s.publics == [])
    && Chain(s.next, CleanFrom(s.owner), s.cleaning)
    && (s.owner == Grab ==> s.private == Null && s.public != Null)
  }

  ghost predicate PlacesOk(s: State) {
    && AreAt(s.place, s.privates, Private) && AreAt(s.place, s.publics, Public) && AreAt(s.place, s.cleaning, Cleaning)
    && (forall o :: o in s.users <==> o in s.place && s.place[o] == User)
  }

  predicate PhaseOk(s: State, o: Obj, f: Freer) {
    match f
    case CountUp => o in s.place && s.place[o] == Released && s.public == Dead
    case Release => s.public == Dead
    case Cas(seen) => seen != Dead && o in s.next && s.next[o] == seen
    case Link(seen) => seen != Dead
    case Load => true
  }

  predicate FreerOk(s: State, o: Obj) {
    o in s.freeing ==>
      PhaseOk(s, o, PhaseOf(s, o)) && (PhaseOf(s, o) != CountUp ==> o in s.place && s.place[o] == Freeing)
  }

  ghost predicate FreersOk(s: State) {
    && (forall o :: FreerOk(s, o))
    && (forall o :: o in s.place && s.place[o] == Freeing ==> o in s.freeing)
  }

  /** The objects that have still to be counted. */
  function Owed(s: State): nat { |s.users| + |s.freeing| }

  /** The objects on lists. */
  function Held(s: State): nat { |s.privates| + |s.publics| + |s.cleaning| }

  ghost predicate CountsOk(s: State) {
    && (Open(s.owner) ==> s.publicCounter == 0)
    && (Over(s.owner) ==> s.publicCounter == 0 - Owed(s))
    && (!Over(s.owner) ==> s.privateCounter == Held(s) + Removed(s.owner) + Owed(s) + s.publicCounter)
    && (!Over(s.owner) ==> s.publicCounter >= 0)
  }

  /** Whether somebody is to free the pool or has done so. */
  function Closings(s: State): nat { |s.closers| + s.poolFrees + if s.owner == FreePool then 1 else 0 }

  ghost predicate ClosingOk(s: State) {
    Closings(s) == if Over(s.owner) && Owed(s) == 0 then 1 else 0
  }

  ghost predicate Inv(s: State) {
    ListsOk(s) && PlacesOk(s) && FreersOk(s) && CountsOk(s) && ClosingOk(s)
  }

  lemma InitLists()
    ensures ListsOk(Init) && PlacesOk(Init)
  {
  }

  lemma InitFreers()
    ensures FreersOk(Init)
  {
  }

  lemma InitCounts()
    ensures CountsOk(Init)
  {
  }

  lemma InitClosing()
    ensures ClosingOk(Init)
  {
  }

  lemma InitInv()
    ensures Inv(Init)
  {
    hide ListsOk, PlacesOk, FreersOk, CountsOk, ClosingOk;
    InitLists();
    InitFreers();
    InitCounts();
    InitClosing();
  }

  // ------------------------------------------------------------ the lists

  lemma ChainRest(next: map<Obj, Ptr>, p: Ptr, q: seq<Obj>)
    requires Chain(next, p, q) && p.To?
    ensures q != [] && q[0] == p.o && p.o in next && Chain(next, next[p.o], q[1..])
  {
  }

  lemma ChainNull(next: map<Obj, Ptr>, p: Ptr, q: seq<Obj>)
    requires Chain(next, p, q)
    ensures p != Dead && (p == Null <==> q == [])
  {
  }

  /** Writing the link of an object that is not in the list. */
  lemma ChainFrame(next: map<Obj, Ptr>, p: Ptr, q: seq<Obj>, o: Obj, x: Ptr)
    requires Chain(next, p, q) && o !in q
    ensures Chain(next[o := x], p, q)
  {
    var next' := next[o := x];
    forall i | 0 <= i < |q| ensures q[i] in next' && next'[q[i]] == PtrAt(q, i + 1) { assert q[i] in q; }
  }

  lemma ChainPush(next: map<Obj, Ptr>, p: Ptr, q: seq<Obj>, o: Obj)
    requires Chain(next, p, q) && o !in q && o in next && next[o] == p
    ensures Chain(next, To(o), [o] + q)
  {
    var r := [o] + q;
    forall i | 0 <= i < |r| ensures r[i] in next && next[r[i]] == PtrAt(r, i + 1) {
      if i > 0 { assert r[i] == q[i - 1]; }
    }
  }

  lemma RestMembers(next: map<Obj, Ptr>, p: Ptr, q: seq<Obj>)
    requires Chain(next, p, q) && q != []
    ensures forall o :: o in q[1..] <==> o in q && o != q[0]
  {
  }

  // ----------------------------------------------------------- the steps

  /** The objects of a list move on together, or all but the first. */
  lemma MovedAll(place: map<Obj, Place>, q: seq<Obj>, from: Place, to: Place)
    requires AreAt(place, q, from) && from != to
    ensures var place' := MoveAll(place, q, to);
      forall o :: PlaceOf(place', o) == (if o in q then to else PlaceOf(place, o)) && (o in place' <==> o in place)
  {
  }

  /** What a step does not do to the objects being freed. */
  ghost predicate FreersKept(s: State, s': State) {
    && s'.freeing == s.freeing && s'.freer == s.freer
    && (s.public == Dead ==> s'.public == Dead)
    && (forall o :: o in s.freeing ==>
          NextOf(s', o) == NextOf(s, o) && (o in s.next ==> o in s'.next) && o in s.place && o in s'.place && s'.place[o] == s.place[o])
    && (forall o :: o in s'.place && s'.place[o] == Freeing ==> o in s.place && s.place[o] == Freeing)
  }

  lemma FreersFrame(s: State, s': State)
    requires FreersOk(s) && (forall o :: o in s.freeing ==> o in s.place) && FreersKept(s, s')
    ensures FreersOk(s')
  {
    forall x ensures FreerOk(s', x) { assert FreerOk(s, x); }
  }

  lemma FreeingPlaces(s: State)
    requires FreersOk(s)
    ensures forall o :: o in s.freeing ==> o in s.place && (s.place[o] == Freeing || s.place[o] == Released)
  {
    forall o | o in s.freeing ensures o in s.place && (s.place[o] == Freeing || s.place[o] == Released) {
      assert FreerOk(s, o);
    }
  }

  /** The first object of a list goes elsewhere. */
  lemma TakeFirst(place: map<Obj, Place>, q: seq<Obj>, from: Place, to: Place)
    requires AreAt(place, q, from) && q != [] && from != to && q[0] !in q[1..]
    ensures AreAt(place[q[0] := to], q[1..], from)
  {
    assert forall o :: o in q <==> o == q[0] || o in q[1..];
  }

  /** An object comes to the front of a list. */
  lemma PutFirst(place: map<Obj, Place>, q: seq<Obj>, p: Place, o: Obj)
    requires AreAt(place, q, p)
    ensures AreAt(place[o := p], [o] + q, p)
  {
    assert forall x :: x in [o] + q <==> x == o || x in q;
  }

  /** A list that is concerned neither by where the object was nor by where it goes. */
  lemma Unconcerned(place: map<Obj, Place>, q: seq<Obj>, p: Place, o: Obj, to: Place)
    requires AreAt(place, q, p) && PlaceOf(place, o) != p && to != p
    ensures AreAt(place[o := to], q, p)
  {
  }

  lemma PopInv(s: State, unused: Obj)
    requires Inv(s) && s.owner == Idle && s.private.To?
    ensures Inv(StepAllocate(s, unused))
  {
    var s', o := StepAllocate(s, unused), s.private.o;
    ChainRest(s.next, s.private, s.privates);
    RestMembers(s.next, s.private, s.privates);
    assert o in s.privates && o !in s.users;
    TakeFirst(s.place, s.privates, Private, User);
    Unconcerned(s.place, s.publics, Public, o, User);
    Unconcerned(s.place, s.cleaning, Cleaning, o, User);
    PopFreers(s, unused);
    hide Chain, AreAt, FreersOk;
    assert s'.place == s.place[o := User];
    assert forall x :: x in s'.users <==> x in s'.place && s'.place[x] == User;
  }

  lemma PopFreers(s: State, unused: Obj)
    requires PlacesOk(s) && FreersOk(s) && s.private.To? && s.private.o in s.privates
    ensures FreersOk(StepAllocate(s, unused))
  {
    FreeingPlaces(s);
    hide FreersOk;
    FreersFrame(s, StepAllocate(s, unused));
  }

  lemma NewInv(s: State, unused: Obj)
    requires Inv(s) && s.owner == Idle && unused !in s.place && !s.private.To? && s.public == Null
    ensures Inv(StepAllocate(s, unused))
  {
    hide FreersOk, AreAt;
    NewPlaces(s, unused);
    NewCounts(s, unused);
    hide PlacesOk, CountsOk, ClosingOk, Chain;
  }

  lemma NewPlaces(s: State, unused: Obj)
    requires PlacesOk(s) && FreersOk(s) && s.owner == Idle && unused !in s.place && !s.private.To? && s.public == Null
    ensures var s' := StepAllocate(s, unused); PlacesOk(s') && FreersOk(s')
  {
    var s' := StepAllocate(s, unused);
    Unconcerned(s.place, s.privates, Private, unused, User);
    Unconcerned(s.place, s.publics, Public, unused, User);
    Unconcerned(s.place, s.cleaning, Cleaning, unused, User);
    FreeingPlaces(s);
    hide FreersOk, AreAt;
    FreersFrame(s, s');
  }

  lemma NewCounts(s: State, unused: Obj)
    requires PlacesOk(s) && CountsOk(s) && ClosingOk(s)
    requires s.owner == Idle && unused !in s.place && !s.private.To? && s.public == Null
    ensures var s' := StepAllocate(s, unused); CountsOk(s') && ClosingOk(s')
  {
    hide AreAt;
    assert unused !in s.users;
  }

  lemma SeenInv(s: State, unused: Obj)
    requires Inv(s) && s.owner == Idle && !s.private.To? && s.public != Null
    ensures Inv(StepAllocate(s, unused))
  {
    var s' := StepAllocate(s, unused);
    ChainNull(s.next, s.private, s.privates);
    hide Chain, AreAt;
    forall x ensures FreerOk(s', x) { assert FreerOk(s, x); }
  }

  /** The whole public list becomes the private list, but for its first object. */
  lemma GrabInv(s: State)
    requires Inv(s) && s.owner == Grab
    ensures s.public.To? && Inv(StepOwner(s))
  {
    hide FreersOk, PlacesOk;
    ChainNull(s.next, s.public, s.publics);
    ChainNull(s.next, s.private, s.privates);
    ChainRest(s.next, s.public, s.publics);
    GrabPlaces(s);
    GrabFreers(s);
    GrabCounts(s);
    assert ListsOk(StepOwner(s));
    hide ListsOk, Chain, CountsOk, ClosingOk;
  }

  lemma GrabFreers(s: State)
    requires PlacesOk(s) && FreersOk(s) && s.owner == Grab && s.public.To?
    requires s.publics != [] && s.publics[0] == s.public.o
    ensures FreersOk(StepOwner(s))
  {
    FreeingPlaces(s);
    MovedAll(s.place, s.publics, Public, Private);
    assert s.public.o in s.publics;
    assert FreersKept(s, StepOwner(s)) by { hide MoveAll; }
    FreersFrame(s, StepOwner(s));
    hide FreersKept, FreersOk, PlacesOk;
  }

  lemma GrabCounts(s: State)
    requires PlacesOk(s) && CountsOk(s) && ClosingOk(s) && s.owner == Grab && s.public.To?
    requires s.publics != [] && s.publics[0] == s.public.o && s.privates == []
    ensures CountsOk(StepOwner(s)) && ClosingOk(StepOwner(s))
  {
    hide MoveAll;
    assert s.public.o in s.publics && s.public.o !in s.users;
  }

  lemma GrabPlaces(s: State)
    requires PlacesOk(s) && s.owner == Grab && s.public.To? && s.publics != [] && s.publics[0] == s.public.o
    requires s.privates == [] && Chain(s.next, s.public, s.publics)
    ensures PlacesOk(StepOwner(s))
  {
    var moved := MoveAll(s.place, s.publics, Private);
    MovedAll(s.place, s.publics, Public, Private);
    RestMembers(s.next, s.public, s.publics);
    hide Chain, MoveAll;
    assert AreAt(moved, s.publics, Private) && AreAt(moved, [], Public) && AreAt(moved, s.cleaning, Cleaning);
    TakeFirst(moved, s.publics, Private, User);
  }

  lemma CleanInv(s: State)
    requires Inv(s) && CleanFrom(s.owner).To?
    ensures Inv(StepOwner(s))
  {
    hide FreersOk, PlacesOk;
    ChainRest(s.next, CleanFrom(s.owner), s.cleaning);
    assert ListsOk(StepOwner(s)) && CountsOk(StepOwner(s)) && ClosingOk(StepOwner(s));
    hide ListsOk, Chain, CountsOk, ClosingOk;
    CleanPlaces(s);
    CleanFreers(s);
  }

  lemma CleanPlaces(s: State)
    requires PlacesOk(s) && CleanFrom(s.owner).To? && Chain(s.next, CleanFrom(s.owner), s.cleaning)
    ensures PlacesOk(StepOwner(s)) && StepOwner(s).place == s.place[CleanFrom(s.owner).o := Released]
  {
    var s', o := StepOwner(s), CleanFrom(s.owner).o;
    ChainRest(s.next, CleanFrom(s.owner), s.cleaning);
    RestMembers(s.next, CleanFrom(s.owner), s.cleaning);
    assert o in s.cleaning && o !in s.users;
    TakeFirst(s.place, s.cleaning, Cleaning, Released);
    Unconcerned(s.place, s.publics, Public, o, Released);
    Unconcerned(s.place, s.privates, Private, o, Released);
    hide Chain, AreAt;
  }

  lemma CleanFreers(s: State)
    requires PlacesOk(s) && FreersOk(s) && CleanFrom(s.owner).To? && Chain(s.next, CleanFrom(s.owner), s.cleaning)
    requires StepOwner(s).place == s.place[CleanFrom(s.owner).o := Released]
    ensures FreersOk(StepOwner(s))
  {
    ChainRest(s.next, CleanFrom(s.owner), s.cleaning);
    assert CleanFrom(s.owner).o in s.cleaning;
    FreeingPlaces(s);
    hide Chain, FreersOk;
    FreersFrame(s, StepOwner(s));
  }

  lemma CleanedInv(s: State)
    requires Inv(s) && (s.owner.CleanPrivate? || s.owner.CleanPublic?) && !CleanFrom(s.owner).To?
    ensures Inv(StepOwner(s))
  {
    ChainNull(s.next, CleanFrom(s.owner), s.cleaning);
    hide AreAt;
    var s' := StepOwner(s);
    forall x ensures FreerOk(s', x) { assert FreerOk(s, x); }
  }

  lemma MarkInv(s: State)
    requires Inv(s) && s.owner == Mark
    ensures Inv(StepOwner(s))
  {
    ChainNull(s.next, Null, s.cleaning);
    MovedAll(s.place, s.publics, Public, Cleaning);
    hide Chain, MoveAll;
    var s' := StepOwner(s);
    forall x ensures FreerOk(s', x) { assert FreerOk(s, x); }
  }

  lemma LeaveInv(s: State)
    requires Inv(s) && (s.owner == Subtract || s.owner == FreePool)
    ensures Inv(StepOwner(s))
  {
    ChainNull(s.next, Null, s.cleaning);
    hide Chain, AreAt;
    var s' := StepOwner(s);
    forall x ensures FreerOk(s', x) { assert FreerOk(s, x); }
  }

  lemma DestroyInv(s: State)
    requires Inv(s) && s.owner == Idle
    ensures Inv(Next(s, Destroy))
  {
    ChainNull(s.next, Null, s.cleaning);
    MovedAll(s.place, s.privates, Private, Cleaning);
    hide Chain, MoveAll;
    var s' := Next(s, Destroy);
    forall x ensures FreerOk(s', x) { assert FreerOk(s, x); }
  }

  lemma FreeLocalInv(s: State, o: Obj)
    requires Inv(s) && s.owner == Idle && o in s.users
    ensures Inv(Next(s, FreeLocal(o)))
  {
    var s' := Next(s, FreeLocal(o));
    ChainFrame(s.next, s.private, s.privates, o, s.private);
    ChainFrame(s.next, s.public, s.publics, o, s.private);
    ChainFrame(s.next, Null, s.cleaning, o, s.private);
    ChainPush(s.next[o := s.private], s.private, s.privates, o);
    PutFirst(s.place, s.privates, Private, o);
    Unconcerned(s.place, s.publics, Public, o, Private);
    Unconcerned(s.place, s.cleaning, Cleaning, o, Private);
    FreeingPlaces(s);
    hide Chain, AreAt, FreersOk;
    FreersFrame(s, s');
  }

  lemma FreeForeignInv(s: State, o: Obj)
    requires Inv(s) && o in s.users
    ensures Inv(Next(s, FreeForeign(o)))
  {
    HandedFreers(s, o);
    HandedCounts(s, o);
    HandedPlaces(s, o);
    hide Chain, FreersOk, PlacesOk, CountsOk, ClosingOk;
  }

  lemma HandedCounts(s: State, o: Obj)
    requires CountsOk(s) && ClosingOk(s) && o in s.users && o !in s.freeing
    ensures CountsOk(Next(s, FreeForeign(o))) && ClosingOk(Next(s, FreeForeign(o)))
  {
    HandedOwed(s, o);
    hide Owed;
  }

  lemma HandedPlaces(s: State, o: Obj)
    requires PlacesOk(s) && o in s.users
    ensures PlacesOk(Next(s, FreeForeign(o)))
  {
    Unconcerned(s.place, s.privates, Private, o, Freeing);
    Unconcerned(s.place, s.publics, Public, o, Freeing);
    Unconcerned(s.place, s.cleaning, Cleaning, o, Freeing);
    hide AreAt;
  }

  lemma HandedOwed(s: State, o: Obj)
    requires o in s.users && o !in s.freeing
    ensures Owed(Next(s, FreeForeign(o))) == Owed(s)
  {
  }

  lemma HandedFreers(s: State, o: Obj)
    requires PlacesOk(s) && FreersOk(s) && o in s.users
    ensures o !in s.freeing && FreersOk(Next(s, FreeForeign(o)))
  {
    hide AreAt;
    FreeingPlaces(s);
    assert o !in s.freeing;
    forall x ensures FreerOk(Next(s, FreeForeign(o)), x) { assert FreerOk(s, x); }
  }

  lemma LinkInv(s: State, o: Obj)
    requires Inv(s) && o in s.freeing && PhaseOf(s, o).Link?
    ensures Inv(StepFreer(s, o))
  {
    var s' := StepFreer(s, o);
    assert FreerOk(s, o);
    LinkLists(s, o);
    hide ListsOk, CountsOk, ClosingOk, PlacesOk;
    forall x ensures FreerOk(s', x) { assert FreerOk(s, x); }
    LinkRest(s, o);
  }

  lemma LinkLists(s: State, o: Obj)
    requires ListsOk(s) && PlacesOk(s) && PlaceOf(s.place, o) == Freeing && o in s.place && PhaseOf(s, o).Link?
    ensures ListsOk(StepFreer(s, o))
  {
    var x := PhaseOf(s, o).seen;
    if InUse(s.owner) { ChainFrame(s.next, s.private, s.privates, o, x); }
    if Open(s.owner) { ChainFrame(s.next, s.public, s.publics, o, x); }
    ChainFrame(s.next, CleanFrom(s.owner), s.cleaning, o, x);
    hide Chain;
  }

  lemma LinkRest(s: State, o: Obj)
    requires PlacesOk(s) && CountsOk(s) && ClosingOk(s) && PhaseOf(s, o).Link?
    ensures var s' := StepFreer(s, o); PlacesOk(s') && CountsOk(s') && ClosingOk(s')
  {
    hide AreAt;
  }

  lemma CasInv(s: State, o: Obj)
    requires Inv(s) && o in s.freeing && PhaseOf(s, o).Cas?
    ensures Inv(StepFreer(s, o))
  {
    assert FreerOk(s, o);
    if s.public == PhaseOf(s, o).seen { PushedInv(s, o); } else { RetryInv(s, o); }
  }

  lemma RetryInv(s: State, o: Obj)
    requires Inv(s) && o in s.freeing && PhaseOf(s, o).Cas? && s.public != PhaseOf(s, o).seen
    ensures Inv(StepFreer(s, o))
  {
    var s' := StepFreer(s, o);
    hide Chain, AreAt;
    assert FreerOk(s, o);
    forall x ensures FreerOk(s', x) { assert FreerOk(s, x); }
  }

  /** The list may have changed and come back to the value seen: the link is right all
      the same. */
  lemma PushedInv(s: State, o: Obj)
    requires Inv(s) && o in s.freeing && PhaseOf(s, o).Cas? && s.public == PhaseOf(s, o).seen
    ensures Inv(StepFreer(s, o))
  {
    var s' := StepFreer(s, o);
    assert FreerOk(s, o);
    ChainPush(s.next, s.public, s.publics, o);
    PutFirst(s.place, s.publics, Public, o);
    Unconcerned(s.place, s.privates, Private, o, Public);
    Unconcerned(s.place, s.cleaning, Cleaning, o, Public);
    hide Chain, AreAt;
    forall x ensures FreerOk(s', x) { assert FreerOk(s, x); }
    assert Owed(s') == Owed(s) - 1 && Held(s') == Held(s) + 1;
    hide Owed, Held, FreerOk;
  }

  lemma LookInv(s: State, o: Obj)
    requires Inv(s) && o in s.freeing && (PhaseOf(s, o) == Load || PhaseOf(s, o) == Release)
    ensures Inv(StepFreer(s, o))
  {
    assert FreerOk(s, o);
    LookFreers(s, o);
    hide Chain, FreersOk;
  }

  lemma LookFreers(s: State, o: Obj)
    requires FreersOk(s) && o in s.freeing && (PhaseOf(s, o) == Load || PhaseOf(s, o) == Release)
    ensures FreersOk(StepFreer(s, o))
  {
    assert FreerOk(s, o);
    forall x ensures FreerOk(StepFreer(s, o), x) { assert FreerOk(s, x); }
  }

  /** The last of those that owe a count closes the pool, and nobody else does. */
  lemma CountUpInv(s: State, o: Obj)
    requires Inv(s) && o in s.freeing && PhaseOf(s, o) == CountUp
    ensures Inv(StepFreer(s, o))
  {
    var s' := StepFreer(s, o);
    assert FreerOk(s, o);
    assert ListsOk(s') && PlacesOk(s') by { hide Chain, AreAt; }
    assert !Open(s.owner);
    forall x ensures FreerOk(s', x) { assert FreerOk(s, x); }
    CountUpCounts(s, o);
    hide ListsOk, PlacesOk, FreerOk, CountsOk, ClosingOk, StepFreer;
  }

  lemma CountUpCounts(s: State, o: Obj)
    requires CountsOk(s) && ClosingOk(s) && o in s.freeing && PhaseOf(s, o) == CountUp && !Open(s.owner)
    ensures CountsOk(StepFreer(s, o)) && ClosingOk(StepFreer(s, o))
  {
    var s' := StepFreer(s, o);
    assert Owed(s') == Owed(s) - 1;
    assert |s.closers| == 0 && s.closers == {};
    assert s'.closers == {} || s'.closers == {o};
  }

  lemma CloseInv(s: State, o: Obj)
    requires Inv(s) && o in s.closers
    ensures Inv(Next(s, Close(o)))
  {
    hide Chain, AreAt;
    var s' := Next(s, Close(o));
    forall x ensures FreerOk(s', x) { assert FreerOk(s, x); }
  }

  lemma StepInv(s: State, e: Event)
    requires Inv(s) && Enabled(s, e)
    ensures Inv(Next(s, e))
  {
    hide Inv, StepOwner, StepFreer, StepAllocate;
    match e
    case Allocate(unused) => AllocateInv(s, unused);
    case OwnerStep => OwnerInv(s);
    case FreeLocal(o) => FreeLocalInv(s, o);
    case FreeForeign(o) => FreeForeignInv(s, o);
    case FreerStep(o) => FreerInv(s, o);
    case Close(o) => CloseInv(s, o);
    case Destroy => DestroyInv(s);
  }

  lemma AllocateInv(s: State, unused: Obj)
    requires Inv(s) && s.owner == Idle && unused !in s.place
    ensures Inv(StepAllocate(s, unused))
  {
    if s.private.To? { PopInv(s, unused); } else if s.public == Null { NewInv(s, unused); } else { SeenInv(s, unused); }
    hide Inv, StepAllocate;
  }

  lemma OwnerInv(s: State)
    requires Inv(s) && s.owner != Idle && s.owner != Gone
    ensures Inv(StepOwner(s))
  {
    hide Inv, StepOwner;
    if s.owner == Grab { GrabInv(s); }
    else if s.owner == Mark { MarkInv(s); }
    else if s.owner == Subtract || s.owner == FreePool { LeaveInv(s); }
    else if CleanFrom(s.owner).To? { CleanInv(s); }
    else { CleanedInv(s); }
  }

  lemma FreerInv(s: State, o: Obj)
    requires Inv(s) && o in s.freeing
    ensures Inv(StepFreer(s, o))
  {
    hide Inv, StepFreer;
    match PhaseOf(s, o)
    case Load => LookInv(s, o);
    case Link(_) => LinkInv(s, o);
    case Cas(_) => CasInv(s, o);
    case Release => LookInv(s, o);
    case CountUp => CountUpInv(s, o);
  }

  lemma {:induction false} RunInv(s: State, es: seq<Event>)
    requires Inv(s) && CanRun(s, es)
    ensures Inv(Run(s, es))
    decreases |es|
  {
    hide Inv, Next;
    if es != [] {
      StepInv(s, es[0]);
      RunInv(Next(s, es[0]), es[1..]);
    }
  }

  ghost predicate Reachable(s: State) {
    exists es :: CanRun(Init, es) && s == Run(Init, es)
  }

  lemma ReachableInv(s: State)
    requires Reachable(s)
    ensures Inv(s)
  {
    var es :| CanRun(Init, es) && s == Run(Init, es);
    InitInv();
    hide Inv, Run, CanRun;
    RunInv(Init, es);
  }

  // -------------------------------------------------------- main results

  /** Until it goes, the owner's counter is the number of its objects: on its lists, in
      use, or being given back; the source's assertion that it is not negative holds
      at the end too. */
  lemma CounterIsExact(s: State)
    requires Reachable(s)
    ensures InUse(s.owner) ==> s.privateCounter == |s.privates| + |s.publics| + |s.users| + |s.freeing|
    ensures s.owner == Subtract ==> s.privateCounter == |s.users| + |s.freeing| + s.publicCounter >= 0
  {
    ReachableInv(s);
    ChainNull(s.next, CleanFrom(s.owner), s.cleaning);
  }

  /** The pool is freed at most once, by one thread; then its owner is gone, no object
      is in use or being given back, so nobody will touch the pool again; and when
      all are through it has been freed. */
  lemma PoolFreedOnce(s: State)
    requires Reachable(s)
    ensures Closings(s) <= 1 && s.poolFrees <= 1
    ensures Closings(s) == 1 <==> Over(s.owner) && s.users == {} && s.freeing == {}
    ensures s.poolFrees == 1 ==> s.owner == Gone && s.users == {} && s.freeing == {} && s.closers == {}
    ensures s.owner == Gone && s.users == {} && s.freeing == {} && s.closers == {} ==> s.poolFrees == 1
  {
    ReachableInv(s);
    assert Owed(s) == 0 <==> s.users == {} && s.freeing == {};
    assert |s.closers| == 0 <==> s.closers == {};
  }

  /** When the pool is freed, every object it ever had has been released. */
  lemma NothingLeaks(s: State)
    requires Reachable(s) && s.poolFrees == 1
    ensures forall o :: o in s.place ==> s.place[o] == Released
  {
    ReachableInv(s);
    PoolFreedOnce(s);
    ChainNull(s.next, CleanFrom(s.owner), s.cleaning);
    assert s.privates == [] && s.publics == [] && s.cleaning == [];
    forall o | o in s.place ensures s.place[o] == Released {
      assert o !in s.users && o !in s.privates && o !in s.publics && o !in s.cleaning && o !in s.freeing;
      match s.place[o] case Released => case _ =>
    }
  }

  /** What an allocation hands out was in nobody's hands, and has not been released;
      the grab of the public list finds one there, as the source asserts. */
  lemma AllocatesWhatIsFree(s: State, o: Obj)
    requires Reachable(s)
    ensures s.owner == Idle && s.private == To(o) ==> o !in s.users && o !in s.freeing && PlaceOf(s.place, o) == Private
    ensures s.owner == Grab ==> s.public.To?
    ensures s.owner == Grab && s.public == To(o) ==> o !in s.users && o !in s.freeing && PlaceOf(s.place, o) == Public
    ensures o in s.users ==> PlaceOf(s.place, o) == User && o !in s.freeing
  {
    ReachableInv(s);
    FreeingPlaces(s);
    if Open(s.owner) { ChainNull(s.next, s.public, s.publics); }
    if s.owner == Idle && s.private == To(o) { assert s.privates[0] in s.privates; }
    if s.owner == Grab && s.public == To(o) { assert s.publics[0] in s.publics; }
  }

  /** An allocation takes the front of the private list; if that is empty it is to grab
      the public one, and makes a new object only if that is empty too. */
  lemma AllocatesFromLists(s: State, unused: Obj)
    requires Reachable(s) && Enabled(s, Allocate(unused))
    ensures var s' := Next(s, Allocate(unused));
      if s.privates != [] then s'.users == s.users + {s.privates[0]} && s'.privates == s.privates[1..] && s'.owner == Idle
      else if s.publics != [] then s'.users == s.users && s'.owner == Grab
      else s'.users == s.users + {unused} && s'.owner == Idle && unused !in s.users
  {
    hide Reachable;
    ReachableInv(s);
    ListsWhenIdle(s);
    assert unused !in s.users by { hide ListsOk, FreersOk, CountsOk, ClosingOk, AreAt; }
    hide Inv;
  }

  lemma ListsWhenIdle(s: State)
    requires ListsOk(s) && s.owner == Idle
    ensures s.private == PtrAt(s.privates, 0) && s.public == PtrAt(s.publics, 0)
  {
  }

  /** The grab takes the whole public list at once and hands out its front. */
  lemma GrabsAll(s: State)
    requires Reachable(s) && s.owner == Grab
    ensures s.publics != []
    ensures var s' := Next(s, OwnerStep);
      s'.users == s.users + {s.publics[0]} && s'.privates == s.publics[1..] && s'.publics == [] && s'.owner == Idle
  {
    ReachableInv(s);
    ChainNull(s.next, s.public, s.publics);
  }

  /** The owner never waits: each of its steps goes on ... */
  lemma OwnerNeverWaits(s: State)
    requires Reachable(s) && s.owner != Idle && s.owner != Gone
    ensures StepOwner(s).owner != s.owner
  {
    hide Reachable;
    ReachableInv(s);
    hide FreersOk, PlacesOk, CountsOk, ClosingOk;
    if s.owner == Grab { ChainNull(s.next, s.public, s.publics); }
    hide Inv, ListsOk, Chain;
    OwnerGoesOn(s);
  }

  lemma OwnerGoesOn(s: State)
    requires s.owner != Idle && s.owner != Gone && (s.owner == Grab ==> s.public.To?)
    ensures StepOwner(s).owner != s.owner
  {
    hide MoveAll;
  }

  /** ... and so does each step of a thread that gives an object back. */
  lemma FreerNeverWaits(s: State, o: Obj)
    requires o in s.freeing
    ensures o !in StepFreer(s, o).freeing || PhaseOf(StepFreer(s, o), o) != PhaseOf(s, o)
  {
  }
}
