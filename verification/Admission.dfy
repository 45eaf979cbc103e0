/** How Style forms are let in: one at a time for each person, few in all, and their pictures decoded
    together only as far as a budget of memory goes. */
module Admission {

  type User = nat

  const DECODE_BUDGET := 160 * 1048576
  const DECODE_HEADROOM := 16 * 1048576
  const MAX_DECODE := 96 * 1048576

  /** Who has a Style form under way, at most one each. */
  class StyleSavers {
    var saving: set<User>

    constructor ()
      ensures saving == {}
    {
      saving := {};
    }

    /** Takes the person's place, unless they have it already. */
    method Begin(user: User) returns (ok: bool)
      modifies this
      ensures ok <==> user !in old(saving)
      ensures saving == old(saving) + {user}
    {
      if user in saving {
        return false;
      }
      saving := saving + {user};
      return true;
    }

    method End(user: User)
      modifies this
      ensures saving == old(saving) - {user}
    {
      saving := saving - {user};
    }
  }

  // --- the forms under way ----------------------------------------------------

  /** How far a form has come: it takes its sender's place, then one of the places there are, then decodes
      its pictures one after another, and gives its places back in the opposite order. */
  datatype Phase = Arrived | Began | Placed | Waiting(cost: nat) | Decoding(cost: nat) | Leaving | Gone

  datatype Form = Form(user: User, phase: Phase)

  /** slots are taken of the places there are, used of the memory, and queue waits for memory in turn. */
  datatype State = State(forms: seq<Form>, saving: set<User>, slots: nat, used: nat, queue: seq<nat>) {
    function With(i: nat, phase: Phase): State
      requires i < |forms|
    {
      this.(forms := forms[i := forms[i].(phase := phase)])
    }
  }

  const IDLE := State([], {}, 0, 0, [])

  datatype Event =
    | Arrive(user: User)
    | Begin(form: nat)
    | TakePlace(form: nat)
    | Ask(form: nat, cost: nat)
    | GiveUp(form: nat)
    | Decoded(form: nat)
    | Finish(form: nat)
    | End(form: nat)

  /** What a picture may cost: its own decoding, with the headroom. */
  predicate Payable(cost: nat) { DECODE_HEADROOM <= cost <= MAX_DECODE + DECODE_HEADROOM }

  predicate Enabled(s: State, e: Event) {
    if e.Arrive? then true
    else e.form < |s.forms| &&
         var phase := s.forms[e.form].phase;
         match e
         case Begin(_) => phase.Arrived?
         case TakePlace(_) => phase.Began?
         case Ask(_, cost) => phase.Placed? && Payable(cost)
         case GiveUp(_) => phase.Waiting?
         case Decoded(_) => phase.Decoding?
         case Finish(_) => phase.Placed?
         case End(_) => phase.Leaving?
  }

  /** The queue refers to waiting forms, each once, and to all of them. */
  ghost predicate Queued(s: State) {
    && (forall k ::
          0 <= k < |s.queue| ==> s.queue[k] < |s.forms| && s.forms[s.queue[k]].phase.Waiting?)
    && (forall j, k ::
          0 <= j < k < |s.queue| ==> s.queue[j] != s.queue[k])
    && (forall i ::
          0 <= i < |s.forms| && s.forms[i].phase.Waiting? ==> i in s.queue)
    && (forall i ::
          0 <= i < |s.forms| && s.forms[i].phase.Waiting? ==> Payable(s.forms[i].phase.cost))
    && (forall i ::
          0 <= i < |s.forms| && s.forms[i].phase.Decoding? ==> Payable(s.forms[i].phase.cost))
  }

  /** The first in the queue fits in what memory is left. */
  predicate HeadFits(s: State) {
    && s.queue != [] && s.queue[0] < |s.forms| && s.forms[s.queue[0]].phase.Waiting?
    && DECODE_BUDGET - s.used >= s.forms[s.queue[0]].phase.cost
  }

  function Granted(s: State): (t: State)
    requires HeadFits(s)
    ensures |t.forms| == |s.forms|
  {
    var head, cost := s.queue[0], s.forms[s.queue[0]].phase.cost;
    s.With(head, Decoding(cost)).(used := s.used + cost, queue := s.queue[1..])
  }

  /** Memory is handed to the queue in turn, as long as its first fits. */
  function Notified(s: State): (t: State)
    ensures |t.forms| == |s.forms|
    decreases |s.queue|
  {
    if HeadFits(s) then Notified(Granted(s)) else s
  }

  function Without(queue: seq<nat>, i: nat): seq<nat> {
    if queue == [] then []
    else if queue[0] == i then queue[1..]
    else [queue[0]] + Without(queue[1..], i)
  }

  function Left(s: State, i: nat): State
    requires i < |s.forms|
  {
    s.With(i, Placed).(queue := Without(s.queue, i))
  }

  function GivenBack(s: State, i: nat, cost: nat): State
    requires i < |s.forms|
  {
    s.With(i, Placed).(used := if s.used < cost then 0 else s.used - cost)
  }

  function After(s: State, places: nat, e: Event): (t: State)
    requires Enabled(s, e)
    ensures |s.forms| <= |t.forms|
  {
    match e
    case Arrive(user) => s.(forms := s.forms + [Form(user, Arrived)])
    case Begin(i) =>
      var user := s.forms[i].user;
      if user in s.saving then s.With(i, Gone) else s.With(i, Began).(saving := s.saving + {user})
    case TakePlace(i) =>
      if s.slots >= places then s.With(i, Leaving) else s.With(i, Placed).(slots := s.slots + 1)
    case Ask(i, cost) =>
      if DECODE_BUDGET - s.used >= cost && s.queue == [] then s.With(i, Decoding(cost)).(used := s.used + cost)
      else s.With(i, Waiting(cost)).(queue := s.queue + [i])
    case GiveUp(i) =>
      var left := Left(s, i);
      if s.queue != [] && s.queue[0] == i && DECODE_BUDGET > s.used then Notified(left) else left
    case Decoded(i) => Notified(GivenBack(s, i, s.forms[i].phase.cost))
    case Finish(i) => s.With(i, Leaving).(slots := if s.slots == 0 then 0 else s.slots - 1)
    case End(i) => s.With(i, Gone).(saving := s.saving - {s.forms[i].user})
  }

  // --- the invariant ----------------------------------------------------------

  predicate HoldsPerson(p: Phase) { !p.Arrived? && !p.Gone? }

  function PlaceOf(p: Phase): nat { if p.Placed? || p.Waiting? || p.Decoding? then 1 else 0 }

  function MemoryOf(p: Phase): nat { if p.Decoding? then p.cost else 0 }

  function Total(forms: seq<Form>, of: Phase -> nat): nat {
    if forms == [] then 0 else Total(forms[..|forms| - 1], of) + of(forms[|forms| - 1].phase)
  }

  lemma {:induction false} TotalAfter(forms: seq<Form>, of: Phase -> nat, i: nat, f: Form)
    requires i < |forms|
    ensures Total(forms[i := f], of) == Total(forms, of) - of(forms[i].phase) + of(f.phase)
  {
    var n := |forms| - 1;
    if i == n {
      assert forms[i := f][..n] == forms[..n];
    } else {
      TotalAfter(forms[..n], of, i, f);
      assert forms[i := f][..n] == forms[..n][i := f];
    }
  }

  lemma {:induction false} PartOfTotal(forms: seq<Form>, of: Phase -> nat, i: nat)
    requires i < |forms|
    ensures of(forms[i].phase) <= Total(forms, of)
  {
    var n := |forms| - 1;
    if i < n {
      PartOfTotal(forms[..n], of, i);
    }
  }

  lemma {:induction false} SomePartOfTotal(forms: seq<Form>, of: Phase -> nat) returns (i: nat)
    requires Total(forms, of) > 0
    ensures i < |forms| && of(forms[i].phase) > 0
  {
    var n := |forms| - 1;
    if of(forms[n].phase) > 0 {
      i := n;
    } else {
      i := SomePartOfTotal(forms[..n], of);
    }
  }

  ghost predicate OnePerPerson(s: State) {
    && (forall i ::
          0 <= i < |s.forms| && HoldsPerson(s.forms[i].phase) ==> s.forms[i].user in s.saving)
    && (forall u <- s.saving ::
          exists i :: 0 <= i < |s.forms| && HoldsPerson(s.forms[i].phase) && s.forms[i].user == u)
    && (forall i, j ::
          0 <= i < j < |s.forms| && HoldsPerson(s.forms[i].phase) && HoldsPerson(s.forms[j].phase)
          ==> s.forms[i].user != s.forms[j].user)
  }

  ghost predicate Accounted(s: State, places: nat) {
    && s.slots == Total(s.forms, PlaceOf)
    && s.used == Total(s.forms, MemoryOf)
    && s.slots <= places
    && s.used <= DECODE_BUDGET
  }

  /** The first in the queue waits because it does not fit. */
  ghost predicate HeadWaits(s: State) {
    s.queue != [] && s.queue[0] < |s.forms| && s.forms[s.queue[0]].phase.Waiting?
    ==> s.used + s.forms[s.queue[0]].phase.cost > DECODE_BUDGET
  }

  ghost predicate Inv(s: State, places: nat) {
    && OnePerPerson(s)
    && Accounted(s, places)
    && Queued(s)
    && HeadWaits(s)
  }

  /** Whom the forms are of and which of them wait is a matter of the forms, the savers and the queue. */
  lemma SamePeople(s: State, t: State)
    requires t.forms == s.forms && t.saving == s.saving
    ensures OnePerPerson(s) ==> OnePerPerson(t)
  {
  }

  lemma SameQueue(s: State, t: State)
    requires t.forms == s.forms && t.queue == s.queue
    ensures Queued(s) ==> Queued(t)
    ensures HeadWaits(s) && t.used >= s.used ==> HeadWaits(t)
  {
  }

  lemma PersonKept(s: State, i: nat, phase: Phase)
    requires OnePerPerson(s) && i < |s.forms| && HoldsPerson(s.forms[i].phase) && HoldsPerson(phase)
    ensures OnePerPerson(s.With(i, phase))
  {
    var t := s.With(i, phase);
    forall u <- t.saving ensures exists k :: 0 <= k < |t.forms| && HoldsPerson(t.forms[k].phase) && t.forms[k].user == u {
      var k :| 0 <= k < |s.forms| && HoldsPerson(s.forms[k].phase) && s.forms[k].user == u;
      assert HoldsPerson(t.forms[k].phase) && t.forms[k].user == u;
    }
  }

  lemma Moved(s: State, i: nat, phase: Phase)
    requires i < |s.forms|
    ensures Total(s.With(i, phase).forms, PlaceOf) == Total(s.forms, PlaceOf) - PlaceOf(s.forms[i].phase) + PlaceOf(phase)
    ensures Total(s.With(i, phase).forms, MemoryOf) == Total(s.forms, MemoryOf) - MemoryOf(s.forms[i].phase) + MemoryOf(phase)
    ensures PlaceOf(s.forms[i].phase) <= Total(s.forms, PlaceOf)
    ensures MemoryOf(s.forms[i].phase) <= Total(s.forms, MemoryOf)
  {
    TotalAfter(s.forms, PlaceOf, i, s.forms[i].(phase := phase));
    TotalAfter(s.forms, MemoryOf, i, s.forms[i].(phase := phase));
    PartOfTotal(s.forms, PlaceOf, i);
    PartOfTotal(s.forms, MemoryOf, i);
  }

  lemma GrantingKeepsTheQueue(s: State)
    requires Queued(s) && HeadFits(s)
    ensures Queued(Granted(s))
  {
    var t := Granted(s);
    forall i | 0 <= i < |t.forms| && t.forms[i].phase.Waiting? ensures i in t.queue {
      assert i in s.queue;
    }
  }

  lemma GrantingKeepsTheBooks(s: State, places: nat)
    requires OnePerPerson(s) && Accounted(s, places) && HeadFits(s)
    ensures OnePerPerson(Granted(s)) && Accounted(Granted(s), places)
  {
    var head, cost := s.queue[0], s.forms[s.queue[0]].phase.cost;
    PersonKept(s, head, Decoding(cost));
    Moved(s, head, Decoding(cost));
  }

  /** t is s after the first k of its queue were given memory. */
  ghost predicate Handed(s: State, t: State, k: nat) {
    && k <= |s.queue| && t.queue == s.queue[k..]
    && |t.forms| == |s.forms| && t.saving == s.saving && t.slots == s.slots
    && (forall i :: 0 <= i < |s.forms| && i !in s.queue[..k] ==> t.forms[i] == s.forms[i])
    && (forall i :: 0 <= i < |s.forms| && i in s.queue[..k] ==>
          s.forms[i].phase.Waiting? && t.forms[i] == s.forms[i].(phase := Decoding(s.forms[i].phase.cost)))
  }

  lemma HandedOneMore(s: State, t: State, k: nat)
    requires Queued(s) && HeadFits(s) && Handed(Granted(s), t, k)
    ensures Handed(s, t, k + 1)
  {
    var g := Granted(s);
    assert g.queue[k..] == s.queue[k + 1..];
    assert s.queue[..k + 1] == [s.queue[0]] + g.queue[..k];
    assert s.queue[0] !in g.queue[..k];
  }

  /** Handing memory out in turn keeps the books, ends with nobody at the head who would fit, and serves
      the queue from its front. */
  lemma {:induction false} NotifiedKeeps(s: State, places: nat) returns (k: nat)
    requires OnePerPerson(s) && Accounted(s, places) && Queued(s)
    ensures Inv(Notified(s), places)
    ensures Handed(s, Notified(s), k)
    decreases |s.queue|
  {
    if HeadFits(s) {
      GrantingKeepsTheQueue(s);
      GrantingKeepsTheBooks(s, places);
      k := NotifiedKeeps(Granted(s), places);
      HandedOneMore(s, Notified(Granted(s)), k);
      k := k + 1;
    } else {
      k := 0;
      assert s.queue[0..] == s.queue;
    }
  }

  lemma {:induction false} WithoutIs(queue: seq<nat>, i: nat)
    requires forall j, k :: 0 <= j < k < |queue| ==> queue[j] != queue[k]
    ensures forall x :: x in Without(queue, i) <==> x in queue && x != i
    ensures var w := Without(queue, i); forall j, k :: 0 <= j < k < |w| ==> w[j] != w[k]
    ensures queue != [] && queue[0] != i ==> Without(queue, i) != [] && Without(queue, i)[0] == queue[0]
  {
    if queue != [] && queue[0] != i {
      WithoutIs(queue[1..], i);
      assert queue == [queue[0]] + queue[1..];
      assert queue[0] !in queue[1..];
      assert queue[0] !in Without(queue[1..], i);
    } else if queue != [] {
      assert queue == [queue[0]] + queue[1..];
    }
  }

  // --- every event keeps it ---------------------------------------------------

  /** A form that neither waits nor comes to wait leaves the queue as it is. */
  lemma QueueUnmoved(s: State, i: nat, phase: Phase)
    requires Queued(s) && i < |s.forms| && !s.forms[i].phase.Waiting? && !phase.Waiting?
    requires phase.Decoding? ==> Payable(phase.cost)
    ensures Queued(s.With(i, phase))
    ensures HeadWaits(s) ==> HeadWaits(s.With(i, phase))
  {
  }

  lemma PersonComes(s: State, i: nat)
    requires OnePerPerson(s) && i < |s.forms| && s.forms[i].phase.Arrived? && s.forms[i].user !in s.saving
    ensures OnePerPerson(s.With(i, Began).(saving := s.saving + {s.forms[i].user}))
  {
    var t := s.With(i, Began).(saving := s.saving + {s.forms[i].user});
    forall u <- t.saving ensures exists k :: 0 <= k < |t.forms| && HoldsPerson(t.forms[k].phase) && t.forms[k].user == u {
      if u in s.saving {
        var k :| 0 <= k < |s.forms| && HoldsPerson(s.forms[k].phase) && s.forms[k].user == u;
        assert t.forms[k] == s.forms[k];
      } else {
        assert HoldsPerson(t.forms[i].phase);
      }
    }
  }

  lemma PersonGoes(s: State, i: nat)
    requires OnePerPerson(s) && i < |s.forms|
    requires (s.forms[i].phase.Arrived? && s.forms[i].user in s.saving) || s.forms[i].phase.Leaving?
    ensures s.forms[i].phase.Arrived? ==> OnePerPerson(s.With(i, Gone))
    ensures s.forms[i].phase.Leaving? ==> OnePerPerson(s.With(i, Gone).(saving := s.saving - {s.forms[i].user}))
  {
    var saving := if s.forms[i].phase.Arrived? then s.saving else s.saving - {s.forms[i].user};
    var t := s.With(i, Gone).(saving := saving);
    forall u <- t.saving ensures exists k :: 0 <= k < |t.forms| && HoldsPerson(t.forms[k].phase) && t.forms[k].user == u {
      var k :| 0 <= k < |s.forms| && HoldsPerson(s.forms[k].phase) && s.forms[k].user == u;
      assert t.forms[k] == s.forms[k];
    }
  }

  lemma ArrivingKeepsPeople(s: State, places: nat, user: User)
    requires OnePerPerson(s)
    ensures OnePerPerson(After(s, places, Arrive(user)))
  {
    var t := After(s, places, Arrive(user));
    forall u <- t.saving ensures exists k :: 0 <= k < |t.forms| && HoldsPerson(t.forms[k].phase) && t.forms[k].user == u {
      var k :| 0 <= k < |s.forms| && HoldsPerson(s.forms[k].phase) && s.forms[k].user == u;
      assert t.forms[k] == s.forms[k];
    }
  }

  lemma ArrivingKeepsTheBooks(s: State, places: nat, user: User)
    ensures Accounted(s, places) ==> Accounted(After(s, places, Arrive(user)), places)
  {
    assert After(s, places, Arrive(user)).forms[..|s.forms|] == s.forms;
  }

  lemma ArrivingKeepsTheQueue(s: State, places: nat, user: User)
    requires Queued(s) && HeadWaits(s)
    ensures Queued(After(s, places, Arrive(user))) && HeadWaits(After(s, places, Arrive(user)))
  {
  }

  lemma ArriveKeeps(s: State, places: nat, user: User)
    requires Inv(s, places)
    ensures Inv(After(s, places, Arrive(user)), places)
  {
    hide OnePerPerson, Queued, HeadWaits, Accounted, After;
    ArrivingKeepsPeople(s, places, user);
    ArrivingKeepsTheBooks(s, places, user);
    ArrivingKeepsTheQueue(s, places, user);
  }

  /** A form that neither waits nor comes to wait moves on, taking or giving back what its phases differ
      by; of memory it gives none back. */
  lemma OneFormMoves(s: State, places: nat, i: nat, phase: Phase, slots: nat, used: nat)
    requires Inv(s, places) && i < |s.forms|
    requires HoldsPerson(s.forms[i].phase) && HoldsPerson(phase) && !s.forms[i].phase.Waiting? && !phase.Waiting?
    requires phase.Decoding? ==> Payable(phase.cost)
    requires slots == s.slots - PlaceOf(s.forms[i].phase) + PlaceOf(phase) <= places
    requires used == s.used - MemoryOf(s.forms[i].phase) + MemoryOf(phase) <= DECODE_BUDGET && used >= s.used
    ensures Inv(s.With(i, phase).(slots := slots, used := used), places)
  {
    hide OnePerPerson, Queued, HeadWaits, Total;
    Moved(s, i, phase);
    PersonKept(s, i, phase);
    QueueUnmoved(s, i, phase);
    var t := s.With(i, phase).(slots := slots, used := used);
    SamePeople(s.With(i, phase), t);
    SameQueue(s.With(i, phase), t);
  }

  lemma JoiningTheQueue(s: State, i: nat, cost: nat)
    requires Queued(s) && i < |s.forms| && s.forms[i].phase.Placed? && Payable(cost)
    ensures Queued(s.With(i, Waiting(cost)).(queue := s.queue + [i]))
  {
    var t := s.With(i, Waiting(cost)).(queue := s.queue + [i]);
    assert i !in s.queue;
    assert t.queue[|s.queue|] == i;
    forall k | 0 <= k < |t.forms| && t.forms[k].phase.Waiting? ensures k in t.queue {
      assert k == i || k in s.queue;
    }
  }

  lemma JoiningHeadWaits(s: State, i: nat, cost: nat)
    requires Queued(s) && HeadWaits(s) && i < |s.forms| && s.forms[i].phase.Placed? && s.used <= DECODE_BUDGET
    requires DECODE_BUDGET - s.used < cost || s.queue != []
    ensures HeadWaits(s.With(i, Waiting(cost)).(queue := s.queue + [i]))
  {
    if s.queue != [] {
      assert s.forms[s.queue[0]].phase.Waiting? && s.queue[0] != i;
    }
  }

  lemma AskingWaits(s: State, places: nat, i: nat, cost: nat)
    requires Inv(s, places) && Enabled(s, Ask(i, cost))
    requires DECODE_BUDGET - s.used < cost || s.queue != []
    ensures Inv(s.With(i, Waiting(cost)).(queue := s.queue + [i]), places)
  {
    hide OnePerPerson, Queued, HeadWaits, Total;
    var t := s.With(i, Waiting(cost)).(queue := s.queue + [i]);
    JoiningHeadWaits(s, i, cost);
    Moved(s, i, Waiting(cost));
    PersonKept(s, i, Waiting(cost));
    JoiningTheQueue(s, i, cost);
    SamePeople(s.With(i, Waiting(cost)), t);
  }

  lemma LeavingTheQueue(s: State, i: nat)
    requires Queued(s) && i < |s.forms| && s.forms[i].phase.Waiting?
    ensures Queued(Left(s, i))
  {
    WithoutIs(s.queue, i);
    var t := Left(s, i);
    forall k | 0 <= k < |t.queue| ensures t.queue[k] < |t.forms| && t.forms[t.queue[k]].phase.Waiting? {
      assert t.queue[k] in s.queue;
    }
  }

  /** Leaving the queue other than from its head leaves its head as it was. */
  lemma LeavingBehindTheHead(s: State, i: nat)
    requires Queued(s) && HeadWaits(s) && i < |s.forms| && s.queue != [] && (s.queue[0] != i || DECODE_BUDGET <= s.used)
    requires s.forms[i].phase.Waiting?
    ensures HeadWaits(Left(s, i))
  {
    WithoutIs(s.queue, i);
    var t := Left(s, i);
    if t.queue != [] {
      assert t.queue[0] in s.queue && t.queue[0] != i;
      assert t.forms[t.queue[0]].phase.Waiting? ==> Payable(t.forms[t.queue[0]].phase.cost);
    }
  }

  /** The form back from waiting, or from decoding with what it decoded with. */
  function SteppedBack(s: State, i: nat): State
    requires i < |s.forms| && (s.forms[i].phase.Waiting? || s.forms[i].phase.Decoding?)
  {
    if s.forms[i].phase.Waiting? then Left(s, i) else GivenBack(s, i, s.forms[i].phase.cost)
  }

  lemma SteppingBackKeepsTheBooks(s: State, places: nat, i: nat)
    requires Inv(s, places) && i < |s.forms| && (s.forms[i].phase.Waiting? || s.forms[i].phase.Decoding?)
    ensures var t := SteppedBack(s, i); OnePerPerson(t) && Accounted(t, places) && Queued(t)
  {
    hide OnePerPerson, Queued, HeadWaits, Total, Without;
    Moved(s, i, Placed);
    PersonKept(s, i, Placed);
    SamePeople(s.With(i, Placed), SteppedBack(s, i));
    if s.forms[i].phase.Waiting? {
      LeavingTheQueue(s, i);
    } else {
      QueueUnmoved(s, i, Placed);
      SameQueue(s.With(i, Placed), SteppedBack(s, i));
    }
  }

  lemma WaitingIsQueued(s: State, i: nat)
    requires Queued(s) && i < |s.forms|
    ensures i in s.queue <==> s.forms[i].phase.Waiting?
  {
  }

  /** A decode that ends gives its memory to the queue in turn. */
  lemma DecodedKeeps(s: State, places: nat, i: nat) returns (k: nat)
    requires Inv(s, places) && Enabled(s, Decoded(i))
    ensures Inv(After(s, places, Decoded(i)), places)
    ensures Handed(GivenBack(s, i, s.forms[i].phase.cost), After(s, places, Decoded(i)), k)
    ensures i !in s.queue
  {
    hide OnePerPerson, Queued, HeadWaits, Accounted, Notified, GivenBack, Handed;
    WaitingIsQueued(s, i);
    SteppingBackKeepsTheBooks(s, places, i);
    k := NotifiedKeeps(GivenBack(s, i, s.forms[i].phase.cost), places);
  }

  lemma EventKeepsInv(s: State, places: nat, e: Event)
    requires Inv(s, places) && Enabled(s, e)
    ensures Inv(After(s, places, e), places)
  {
    hide OnePerPerson, Queued, HeadWaits, Total, Notified;
    match e
    case Arrive(user) => ArriveKeeps(s, places, user);
    case Begin(i) =>
      var phase := if s.forms[i].user in s.saving then Gone else Began;
      Moved(s, i, phase);
      QueueUnmoved(s, i, phase);
      if phase == Gone {
        PersonGoes(s, i);
      } else {
        PersonComes(s, i);
        SameQueue(s.With(i, phase), After(s, places, e));
      }
    case TakePlace(i) =>
      if s.slots >= places {
        OneFormMoves(s, places, i, Leaving, s.slots, s.used);
      } else {
        OneFormMoves(s, places, i, Placed, s.slots + 1, s.used);
      }
    case Ask(i, cost) =>
      if DECODE_BUDGET - s.used >= cost && s.queue == [] {
        OneFormMoves(s, places, i, Decoding(cost), s.slots, s.used + cost);
      } else {
        AskingWaits(s, places, i, cost);
      }
    case GiveUp(i) =>
      WaitingIsQueued(s, i);
      SteppingBackKeepsTheBooks(s, places, i);
      if s.queue[0] == i && DECODE_BUDGET > s.used {
        var k := NotifiedKeeps(Left(s, i), places);
      } else {
        LeavingBehindTheHead(s, i);
      }
    case Decoded(i) => var k := DecodedKeeps(s, places, i);
    case Finish(i) =>
      PartOfTotal(s.forms, PlaceOf, i);
      OneFormMoves(s, places, i, Leaving, s.slots - 1, s.used);
    case End(i) =>
      Moved(s, i, Gone);
      QueueUnmoved(s, i, Gone);
      PersonGoes(s, i);
      SameQueue(s.With(i, Gone), After(s, places, e));
  }

  // --- whole runs -------------------------------------------------------------

  ghost predicate Run(s: State, places: nat, events: seq<Event>, t: State)
    decreases |events|
  {
    if events == [] then s == t
    else Enabled(s, events[0]) && Run(After(s, places, events[0]), places, events[1..], t)
  }

  lemma {:induction false} RunKeepsInv(s: State, places: nat, events: seq<Event>, t: State)
    requires Inv(s, places) && Run(s, places, events, t)
    ensures Inv(t, places)
    decreases |events|
  {
    if events != [] {
      EventKeepsInv(s, places, events[0]);
      RunKeepsInv(After(s, places, events[0]), places, events[1..], t);
    }
  }

  predicate Idle(s: State) { forall f <- s.forms :: f.phase.Gone? }

  /** Under any interleaving of forms: no person has two being handled, the people noted are exactly those
      who have one, no more places and no more memory are out than there are, and once every form has
      ended everything has been given back. */
  lemma FormsAreFewAndGiveEverythingBack(places: nat, events: seq<Event>, s: State)
    requires Run(IDLE, places, events, s)
    ensures OnePerPerson(s) && Accounted(s, places)
    ensures Idle(s) ==> s.saving == {} && s.slots == 0 && s.used == 0 && s.queue == []
  {
    RunKeepsInv(IDLE, places, events, s);
    if Idle(s) {
      NothingHeld(s.forms, PlaceOf);
      NothingHeld(s.forms, MemoryOf);
      assert forall i :: 0 <= i < |s.forms| ==> s.forms[i] in s.forms;
    }
  }

  lemma {:induction false} NothingHeld(forms: seq<Form>, of: Phase -> nat)
    requires (forall f <- forms :: f.phase.Gone?) && of(Gone) == 0
    ensures Total(forms, of) == 0
  {
    if forms != [] {
      assert forms[|forms| - 1] in forms;
      NothingHeld(forms[..|forms| - 1], of);
    }
  }

  /** No state has every form waiting: where one waits, another is decoding. */
  lemma SomebodyDecodesWhileAnybodyWaits(places: nat, s: State) returns (i: nat)
    requires Inv(s, places) && s.queue != []
    ensures i < |s.forms| && s.forms[i].phase.Decoding?
  {
    assert Payable(s.forms[s.queue[0]].phase.cost);
    i := SomePartOfTotal(s.forms, MemoryOf);
  }

  /** Two pictures of the largest size never decode together: the memory holds one. */
  lemma TwoOfTheLargestNeverDecodeTogether(places: nat, s: State, i: nat, j: nat)
    requires Inv(s, places) && i < j < |s.forms| && s.forms[i].phase.Decoding? && s.forms[j].phase.Decoding?
    ensures s.forms[i].phase.cost + s.forms[j].phase.cost <= DECODE_BUDGET
    ensures !(s.forms[i].phase.cost == s.forms[j].phase.cost == MAX_DECODE + DECODE_HEADROOM)
  {
    TotalAfter(s.forms, MemoryOf, i, s.forms[i].(phase := Gone));
    PartOfTotal(s.forms[i := s.forms[i].(phase := Gone)], MemoryOf, j);
  }

  /** Steps a form still has to take, if it never asks for memory again. */
  function StepsLeft(p: Phase): nat {
    match p
    case Arrived => 5
    case Began => 4
    case Waiting(_) => 4
    case Decoding(_) => 3
    case Placed => 2
    case Leaving => 1
    case Gone => 0
  }

  /** An event that takes a form on its way out without giving up. */
  predicate Onward(e: Event) { e.Begin? || e.TakePlace? || e.Decoded? || e.Finish? || e.End? }

  /** Until every form has gone, one of them can take its next step without waiting for another. */
  lemma SomebodyCanMove(places: nat, s: State) returns (e: Event)
    requires Inv(s, places) && !Idle(s)
    ensures Onward(e) && Enabled(s, e)
  {
    var f :| f in s.forms && !f.phase.Gone?;
    var i :| 0 <= i < |s.forms| && s.forms[i] == f;
    match f.phase
    case Arrived => e := Begin(i);
    case Began => e := TakePlace(i);
    case Placed => e := Finish(i);
    case Decoding(_) => e := Decoded(i);
    case Leaving => e := End(i);
    case Waiting(_) =>
      assert i in s.queue;
      var j := SomebodyDecodesWhileAnybodyWaits(places, s);
      e := Decoded(j);
  }

  lemma {:induction false} FewerStepsTotal(a: seq<Form>, b: seq<Form>, i: nat)
    requires |a| == |b| && i < |a| && StepsLeft(b[i].phase) < StepsLeft(a[i].phase)
    requires forall k :: 0 <= k < |a| ==> StepsLeft(b[k].phase) <= StepsLeft(a[k].phase)
    ensures Total(b, StepsLeft) < Total(a, StepsLeft)
  {
    var n := |a| - 1;
    if i < n {
      FewerStepsTotal(a[..n], b[..n], i);
    } else {
      NoMoreStepsTotal(a[..n], b[..n]);
    }
  }

  lemma {:induction false} NoMoreStepsTotal(a: seq<Form>, b: seq<Form>)
    requires |a| == |b| && forall k :: 0 <= k < |a| ==> StepsLeft(b[k].phase) <= StepsLeft(a[k].phase)
    ensures Total(b, StepsLeft) <= Total(a, StepsLeft)
  {
    if a != [] {
      NoMoreStepsTotal(a[..|a| - 1], b[..|b| - 1]);
    }
  }

  lemma HandingOutIsProgress(s: State, t: State, k: nat)
    requires Handed(s, t, k)
    ensures forall j :: 0 <= j < |s.forms| ==> StepsLeft(t.forms[j].phase) <= StepsLeft(s.forms[j].phase)
  {
    forall j | 0 <= j < |s.forms| ensures StepsLeft(t.forms[j].phase) <= StepsLeft(s.forms[j].phase) {
      assert j in s.queue[..k] || t.forms[j] == s.forms[j];
    }
  }

  lemma PlacedIsProgress(p: Phase)
    requires p.Decoding?
    ensures StepsLeft(Placed) < StepsLeft(p)
  {
  }

  lemma OthersAreProgress(s: State, places: nat, e: Event)
    requires Enabled(s, e) && Onward(e) && !e.Decoded?
    ensures StepsLeft(After(s, places, e).forms[e.form].phase) < StepsLeft(s.forms[e.form].phase)
  {
  }

  lemma OnwardIsProgress(places: nat, s: State, e: Event)
    requires Inv(s, places) && Enabled(s, e) && Onward(e)
    ensures Total(After(s, places, e).forms, StepsLeft) < Total(s.forms, StepsLeft)
  {
    hide Inv, Notified, Total, StepsLeft;
    if e.Decoded? {
      var k := DecodedKeeps(s, places, e.form);
      var given := GivenBack(s, e.form, s.forms[e.form].phase.cost);
      HandingOutIsProgress(given, After(s, places, e), k);
      PlacedIsProgress(s.forms[e.form].phase);
      assert e.form !in given.queue[..k];
    } else {
      OthersAreProgress(s, places, e);
    }
    FewerStepsTotal(s.forms, After(s, places, e).forms, e.form);
  }

  /** Nobody waits for good: from every state that forms can bring about there is a way on, with nobody
      new arriving and nobody giving up, to every form having gone. */
  lemma {:induction false} EveryFormCanFinish(places: nat, s: State) returns (events: seq<Event>, t: State)
    requires Inv(s, places)
    ensures Run(s, places, events, t) && Idle(t)
    ensures forall e <- events :: Onward(e)
    decreases Total(s.forms, StepsLeft)
  {
    if Idle(s) {
      return [], s;
    }
    var e := SomebodyCanMove(places, s);
    EventKeepsInv(s, places, e);
    OnwardIsProgress(places, s, e);
    var rest;
    rest, t := EveryFormCanFinish(places, After(s, places, e));
    events := [e] + rest;
    assert events[1..] == rest;
  }

  lemma HandedInTurn(s: State, t: State, k: nat, early: nat, late: nat)
    requires Queued(s) && Handed(s, t, k) && early < late < |s.queue|
    requires t.forms[s.queue[late]].phase.Decoding?
    ensures !t.forms[s.queue[early]].phase.Waiting?
  {
    assert s.queue[late] in s.queue[..k];
    assert late < k && s.queue[..k][early] == s.queue[early];
  }

  lemma TheFrontLeavesInTurn(s: State, t: State, k: nat, i: nat, early: nat, late: nat)
    requires i < |s.forms| && Queued(Left(s, i)) && Handed(Left(s, i), t, k) && early < late < |s.queue| && s.queue[0] == i
    requires forall j :: 0 < j < |s.queue| ==> s.queue[j] != i
    requires s.queue[late] < |t.forms| && t.forms[s.queue[late]].phase.Decoding? && s.queue[early] < |t.forms|
    ensures !t.forms[s.queue[early]].phase.Waiting?
  {
    var left := Left(s, i);
    assert left.queue == s.queue[1..];
    if early > 0 {
      HandedInTurn(left, t, k, early - 1, late - 1);
    } else {
      assert i !in left.queue[..k];
    }
  }

  lemma GivingUpServesInTurn(places: nat, s: State, i: nat, early: nat, late: nat)
    requires Inv(s, places) && Enabled(s, GiveUp(i)) && early < late < |s.queue|
    requires After(s, places, GiveUp(i)).forms[s.queue[late]].phase.Decoding?
    ensures !After(s, places, GiveUp(i)).forms[s.queue[early]].phase.Waiting?
  {
    if s.queue[0] == i && DECODE_BUDGET > s.used {
      SteppingBackKeepsTheBooks(s, places, i);
      var k := NotifiedKeeps(Left(s, i), places);
      TheFrontLeavesInTurn(s, Notified(Left(s, i)), k, i, early, late);
    }
  }

  lemma NobodyElseIsServed(places: nat, s: State, e: Event, late: nat)
    requires Queued(s) && Enabled(s, e) && !e.Decoded? && !e.GiveUp? && late < |s.queue|
    ensures s.queue[late] < |s.forms| && !After(s, places, e).forms[s.queue[late]].phase.Decoding?
  {
  }

  /** Memory is given in the order it was asked for: while a form waits, none that asked after it is given
      any. */
  lemma NobodyIsOvertaken(places: nat, s: State, e: Event, early: nat, late: nat)
    requires Inv(s, places) && Enabled(s, e) && early < late < |s.queue|
    requires After(s, places, e).forms[s.queue[late]].phase.Decoding?
    ensures !After(s, places, e).forms[s.queue[early]].phase.Waiting?
  {
    hide OnePerPerson, Queued, HeadWaits, Accounted, Notified, Handed, Total;
    if e.Decoded? {
      var k := DecodedKeeps(s, places, e.form);
      SteppingBackKeepsTheBooks(s, places, e.form);
      HandedInTurn(GivenBack(s, e.form, s.forms[e.form].phase.cost), After(s, places, e), k, early, late);
    } else if e.GiveUp? {
      GivingUpServesInTurn(places, s, e.form, early, late);
    } else {
      NobodyElseIsServed(places, s, e, late);
    }
  }
}
