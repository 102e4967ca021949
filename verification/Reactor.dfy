/** Interest in file descriptor events: the waiting lists of one descriptor, the mask it has
    promised, and the registration the kernel's epoll instance holds for it. */
module Reactors {
  import opened Common

  const POLLIN: bv16 := 0x01
  const POLLOUT: bv16 := 0x04
  const POLLERR: bv16 := 0x08
  const POLLHUP: bv16 := 0x10
  const POLLNVAL: bv16 := 0x20

  const EPOLLIN: bv32 := 0x01
  const EPOLLOUT: bv32 := 0x04
  const EPOLLERR: bv32 := 0x08
  const EPOLLHUP: bv32 := 0x10
  const EPOLLET: bv32 := 0x8000_0000

  const IN_OUT_ERR: bv16 := POLLIN | POLLOUT | POLLERR

  // ------------------------------------------------------------------ masks

  method PollEvent2EpollEvent(pollEvent: bv16) returns (epollEvent: bv32)
    ensures epollEvent == EpollMask(pollEvent)
  {
    epollEvent := 0;
    if pollEvent & POLLIN != 0 { epollEvent := epollEvent | EPOLLIN; }
    if pollEvent & POLLOUT != 0 { epollEvent := epollEvent | EPOLLOUT; }
    if pollEvent & POLLERR != 0 { epollEvent := epollEvent | EPOLLERR; }
    if pollEvent & POLLHUP != 0 { epollEvent := epollEvent | EPOLLHUP; }
  }

  method EpollEvent2PollEvent(epollEvent: bv32) returns (pollEvent: bv16)
    ensures pollEvent == PollMask(epollEvent)
  {
    pollEvent := 0;
    if epollEvent & EPOLLIN != 0 { pollEvent := pollEvent | POLLIN; }
    if epollEvent & EPOLLOUT != 0 { pollEvent := pollEvent | POLLOUT; }
    if epollEvent & EPOLLERR != 0 { pollEvent := pollEvent | POLLERR; }
    if epollEvent & EPOLLHUP != 0 { pollEvent := pollEvent | POLLHUP; }
  }

  /** The four events both sides know have the same bits. */
  function EpollMask(pollEvent: bv16): bv32 {
    (pollEvent & (POLLIN | POLLOUT | POLLERR | POLLHUP)) as bv32
  }

  function PollMask(epollEvent: bv32): bv16 {
    (epollEvent & (EPOLLIN | EPOLLOUT | EPOLLERR | EPOLLHUP)) as bv16
  }

  /** Poll events survive the way to the kernel and back; POLLNVAL has no epoll counterpart. */
  lemma MaskRoundTrip(pollEvent: bv16)
    ensures PollMask(EpollMask(pollEvent)) == pollEvent & (POLLIN | POLLOUT | POLLERR | POLLHUP)
    ensures PollMask(EpollMask(pollEvent) | EPOLLET) == PollMask(EpollMask(pollEvent))
  {
  }

  // ------------------------------------------------------------------ waiting entries

  /** One slot of one poll call: its index, its result array, and the suspension it waits in,
      whose comparison key is never assigned and may have any value. */
  datatype Entry = Entry(index: nat, events: nat, suspension: nat, key: nat)

  /** A result written into an entry's slot, followed by a wake-up call for its suspension. */
  datatype Wake = Wake(entry: Entry, revents: bv16)

  /** The `==` of entries. */
  predicate Same(a: Entry, b: Entry) {
    a.index == b.index && a.events == b.events && a.key == b.key
  }

  function Unexpired(entries: seq<Entry>, expired: set<nat>): seq<Entry> {
    if entries == [] then []
    else (if entries[0].suspension in expired then [] else [entries[0]]) + Unexpired(entries[1..], expired)
  }

  /** How many of the first `k` entries still wait. */
  function LiveBefore(entries: seq<Entry>, expired: set<nat>, k: nat): (n: nat)
    requires k <= |entries|
    ensures n <= k
  {
    if k == 0 then 0
    else LiveBefore(entries, expired, k - 1) + if entries[k - 1].suspension !in expired then 1 else 0
  }

  /** Exactly the entries of `before` that still wait stand at the front of `after`, in order. */
  ghost predicate LiveFirst(before: seq<Entry>, expired: set<nat>, after: seq<Entry>) {
    && LiveBefore(before, expired, |before|) <= |after|
    && forall k | 0 <= k < |before| && before[k].suspension !in expired ::
         LiveBefore(before, expired, k) < LiveBefore(before, expired, |before|) && after[LiveBefore(before, expired, k)] == before[k]
  }

  lemma {:induction false} LiveGrows(entries: seq<Entry>, expired: set<nat>, k: nat, n: nat)
    requires k <= n <= |entries|
    ensures LiveBefore(entries, expired, k) <= LiveBefore(entries, expired, n)
    decreases n
  {
    if k < n {
      LiveGrows(entries, expired, k, n - 1);
    }
  }

  lemma {:induction false} LiveInLonger(entries: seq<Entry>, expired: set<nat>, e: Entry, k: nat)
    requires k <= |entries|
    ensures LiveBefore(entries + [e], expired, k) == LiveBefore(entries, expired, k)
  {
    if k > 0 {
      LiveInLonger(entries, expired, e, k - 1);
    }
  }

  lemma {:induction false} UnexpiredSnoc(entries: seq<Entry>, expired: set<nat>, e: Entry)
    ensures Unexpired(entries + [e], expired) ==
      if e.suspension in expired then Unexpired(entries, expired) else Unexpired(entries, expired) + [e]
  {
    if entries == [] {
      assert [e][1..] == [];
    } else {
      assert (entries + [e])[1..] == entries[1..] + [e];
      UnexpiredSnoc(entries[1..], expired, e);
    }
  }

  lemma LiveInit(init: seq<Entry>, last: Entry, expired: set<nat>, k: nat)
    requires k <= |init|
    ensures LiveBefore(init + [last], expired, k) == LiveBefore(init, expired, k) <= LiveBefore(init, expired, |init|)
    ensures LiveBefore(init + [last], expired, |init| + 1) ==
      LiveBefore(init, expired, |init|) + if last.suspension !in expired then 1 else 0
  {
    LiveInLonger(init, expired, last, k);
    LiveInLonger(init, expired, last, |init|);
    LiveGrows(init, expired, k, |init|);
  }

  lemma LiveAt(init: seq<Entry>, last: Entry, expired: set<nat>, after: seq<Entry>, k: nat)
    requires LiveFirst(init, expired, after) && |after| == LiveBefore(init, expired, |init|)
    requires k <= |init| && (init + [last])[k].suspension !in expired
    ensures var n, more := LiveBefore(init + [last], expired, k), if last.suspension in expired then after else after + [last];
      n < |more| && more[n] == (init + [last])[k]
  {
    LiveInit(init, last, expired, k);
    if k < |init| {
      assert init[k] == (init + [last])[k];
      assert LiveBefore(init, expired, k) < |after| && after[LiveBefore(init, expired, k)] == init[k];
    }
  }

  lemma LiveFirstSnoc(init: seq<Entry>, last: Entry, expired: set<nat>, after: seq<Entry>)
    requires LiveFirst(init, expired, after) && |after| == LiveBefore(init, expired, |init|)
    ensures var more := if last.suspension in expired then after else after + [last];
      LiveFirst(init + [last], expired, more) && |more| == LiveBefore(init + [last], expired, |init| + 1)
  {
    var all := init + [last];
    var more := if last.suspension in expired then after else after + [last];
    LiveInit(init, last, expired, |init|);
    forall k | 0 <= k < |all| && all[k].suspension !in expired
      ensures LiveBefore(all, expired, k) < |more| && more[LiveBefore(all, expired, k)] == all[k]
    {
      LiveAt(init, last, expired, after, k);
    }
    assert |more| == LiveBefore(all, expired, |all|);
  }

  /** What removeExpired leaves: all entries that still wait, as often as before and in order. */
  lemma {:induction false} UnexpiredAre(entries: seq<Entry>, expired: set<nat>)
    ensures LiveFirst(entries, expired, Unexpired(entries, expired))
    ensures |Unexpired(entries, expired)| == LiveBefore(entries, expired, |entries|)
    decreases |entries|
  {
    if entries != [] {
      var n := |entries| - 1;
      var init, last := entries[..n], entries[n];
      assert entries == init + [last];
      UnexpiredAre(init, expired);
      UnexpiredSnoc(init, expired, last);
      LiveFirstSnoc(init, last, expired, Unexpired(init, expired));
    }
  }

  lemma {:induction false} AllLive(entries: seq<Entry>, expired: set<nat>)
    requires forall e | e in entries :: e.suspension !in expired
    ensures Unexpired(entries, expired) == entries
  {
    if entries != [] {
      assert entries == [entries[0]] + entries[1..];
      AllLive(entries[1..], expired);
    }
  }

  /** The list after an entry was added: those that still wait, in order, then the new one.
      Unfolded only where EndsBehind is named. */
  ghost predicate AddedBehind(before: seq<Entry>, expired: set<nat>, after: seq<Entry>, e: Entry) {
    forall n {:trigger EndsBehind(before, expired, after, e, n)} | n == |before| :: EndsBehind(before, expired, after, e, n)
  }

  ghost predicate EndsBehind(before: seq<Entry>, expired: set<nat>, after: seq<Entry>, e: Entry, n: nat) {
    && n == |before| && LiveFirst(before, expired, after)
    && |after| == LiveBefore(before, expired, n) + 1 && after[|after| - 1] == e
    && ((forall w | w in before :: w.suspension !in expired) ==> after == before + [e])
  }

  lemma LiveThenNew(entries: seq<Entry>, expired: set<nat>, e: Entry)
    ensures AddedBehind(entries, expired, Unexpired(entries, expired) + [e], e)
  {
    UnexpiredAre(entries, expired);
    if forall w | w in entries :: w.suspension !in expired {
      AllLive(entries, expired);
    }
    assert EndsBehind(entries, expired, Unexpired(entries, expired) + [e], e, |entries|);
  }

  /** Index of the first entry that counts as the same, or the length. */
  function FindSame(entries: seq<Entry>, e: Entry): (k: nat)
    ensures k <= |entries|
    ensures k < |entries| ==> Same(entries[k], e)
    ensures forall j | 0 <= j < k :: !Same(entries[j], e)
  {
    if entries == [] || Same(entries[0], e) then 0 else 1 + FindSame(entries[1..], e)
  }

  function Rollback(entries: seq<Entry>, e: Entry): seq<Entry> {
    var k := FindSame(entries, e);
    if k < |entries| then entries[..k] + entries[k + 1..] else entries
  }

  /** Taking a just added entry out again restores the list exactly when no other entry waits
      there that counts as the same, or all from that one on are copies of it. */
  lemma RollbackRestores(entries: seq<Entry>, e: Entry)
    ensures Rollback(entries + [e], e) == entries <==>
              forall j | FindSame(entries, e) <= j < |entries| :: entries[j] == e
  {
    if FindSame(entries, e) < |entries| {
      OtherTaken(entries, e);
    } else {
      FindInLonger(entries, e);
      JustAdded(entries, e);
    }
  }

  lemma OtherTaken(entries: seq<Entry>, e: Entry)
    requires FindSame(entries, e) < |entries|
    ensures Rollback(entries + [e], e) == entries <==>
              forall j | FindSame(entries, e) <= j < |entries| :: entries[j] == e
  {
    RolledBack(entries, e, FindSame(entries, e));
    ShiftedFrom(entries, FindSame(entries, e), e);
  }

  /** What rollback takes out is the first that counts as the same. */
  lemma RolledBack(entries: seq<Entry>, e: Entry, k: nat)
    requires k < |entries| && FindSame(entries, e) == k
    ensures Rollback(entries + [e], e) == entries[..k] + entries[k + 1..] + [e]
  {
    var longer := entries + [e];
    FindInLonger(entries, e);
    WithoutFrom(entries, k, e);
    assert Rollback(longer, e) == longer[..k] + longer[k + 1..];
  }

  lemma WithoutFrom(entries: seq<Entry>, k: nat, e: Entry)
    requires k < |entries|
    ensures (entries + [e])[..k] + (entries + [e])[k + 1..] == entries[..k] + entries[k + 1..] + [e]
  {
  }

  /** Rollback takes out the first entry of the same slot, result array and key, and nothing else. */
  lemma RollbackTakesFirst(entries: seq<Entry>, e: Entry) returns (k: nat)
    ensures k <= |entries|
    ensures forall j | 0 <= j < k :: entries[j].index != e.index || entries[j].events != e.events || entries[j].key != e.key
    ensures k < |entries| ==> entries[k].index == e.index && entries[k].events == e.events && entries[k].key == e.key
    ensures Rollback(entries, e) == if k < |entries| then entries[..k] + entries[k + 1..] else entries
  {
    k := FindSame(entries, e);
  }

  lemma JustAdded(entries: seq<Entry>, e: Entry)
    ensures (entries + [e])[..|entries|] + (entries + [e])[|entries| + 1..] == entries
  {
  }

  /** No waiting entry is for the same slot of the same poll call. */
  predicate NewSlot(entries: seq<Entry>, e: Entry) {
    forall w | w in entries :: w.index != e.index || w.events != e.events
  }

  /** A poll call has its own result array and adds each of its slots once, so rollback takes
      out what was added and nothing else. */
  lemma {:induction false} NewSlotRestored(entries: seq<Entry>, e: Entry)
    requires NewSlot(entries, e)
    ensures Rollback(entries + [e], e) == entries
  {
    RollbackRestores(entries, e);
    assert forall j | 0 <= j < |entries| :: entries[j] in entries;
  }

  /** What is left of a list after a refusal. */
  lemma Refused(l: Lists, kind: Kind, expired: set<nat>, entry: Entry, promised: bv16)
    requires Within(Interest(l), promised)
    ensures var list := Unexpired(Select(l, kind), expired);
      && Within(Interest(Put(l, kind, Rollback(list + [entry], entry))), promised)
      && (NewSlot(Select(l, kind), entry) ==> Rollback(list + [entry], entry) == list)
  {
    var before := Select(l, kind);
    var list := Unexpired(before, expired);
    RollbackLength(list + [entry], entry);
    UnexpiredLength(before, expired);
    PutNoMore(l, kind, Rollback(list + [entry], entry), promised);
    if NewSlot(before, entry) {
      StillNewSlot(before, expired, entry);
      NewSlotRestored(list, entry);
    }
  }

  /** The lists with an entry added, and with it taken out again. */
  lemma AddedIs(l: Lists, kind: Kind, expired: set<nat>, entry: Entry, promised: bv16)
    requires Within(Interest(l), promised)
    ensures var list := Unexpired(Select(l, kind), expired);
      var longer := list + [entry];
      var added, refused := Put(l, kind, longer), Put(l, kind, Rollback(longer, entry));
      && Within(Interest(added), promised | WantedEvents(kind)) && Within(Interest(refused), promised)
      && AddedBehind(Select(l, kind), expired, Select(added, kind), entry)
      && Put(added, kind, Rollback(longer, entry)) == refused
      && (NewSlot(Select(l, kind), entry) ==> refused == Put(l, kind, list))
  {
    var longer := Unexpired(Select(l, kind), expired) + [entry];
    LiveThenNew(Select(l, kind), expired, entry);
    SelectPut(l, kind, longer);
    PutTwice(l, kind, longer, Rollback(longer, entry));
    PutMore(l, kind, longer, promised);
    Refused(l, kind, expired, entry, promised);
  }

  lemma {:induction false} UnexpiredMembers(entries: seq<Entry>, expired: set<nat>, e: Entry)
    ensures e in Unexpired(entries, expired) ==> e in entries
  {
    if entries != [] {
      UnexpiredMembers(entries[1..], expired, e);
    }
  }

  lemma StillNewSlot(entries: seq<Entry>, expired: set<nat>, e: Entry)
    requires NewSlot(entries, e)
    ensures NewSlot(Unexpired(entries, expired), e)
  {
    forall w | w in Unexpired(entries, expired) ensures w.index != e.index || w.events != e.events {
      UnexpiredMembers(entries, expired, w);
    }
  }

  lemma ShiftedFrom(entries: seq<Entry>, k: nat, e: Entry)
    requires k < |entries|
    ensures entries[..k] + entries[k + 1..] + [e] == entries <==> forall j | k <= j < |entries| :: entries[j] == e
  {
    var r := entries[..k] + entries[k + 1..] + [e];
    if r == entries {
      var j := |entries|;
      while j > k
        invariant k <= j <= |entries|
        invariant forall i | j <= i < |entries| :: entries[i] == e
      {
        j := j - 1;
        assert entries[j] == r[j];
      }
    }
  }

  lemma {:induction false} FindInLonger(entries: seq<Entry>, e: Entry)
    ensures FindSame(entries + [e], e) == FindSame(entries, e)
  {
    if entries != [] && !Same(entries[0], e) {
      assert (entries + [e])[1..] == entries[1..] + [e];
      FindInLonger(entries[1..], e);
    }
  }

  /** The four waiting lists of a descriptor. */
  datatype Lists = Lists(ins: seq<Entry>, outs: seq<Entry>, inAndOuts: seq<Entry>, errors: seq<Entry>)

  /** Which of the four lists an entry for these events waits in. */
  datatype Kind = Ins | Outs | InAndOuts | Errors

  function KindOf(pollEvent: bv16): Kind {
    if pollEvent & POLLIN != 0 && pollEvent & POLLOUT != 0 then InAndOuts
    else if pollEvent & POLLIN != 0 then Ins
    else if pollEvent & POLLOUT != 0 then Outs
    else Errors
  }

  function Select(l: Lists, kind: Kind): seq<Entry> {
    match kind
    case Ins => l.ins
    case Outs => l.outs
    case InAndOuts => l.inAndOuts
    case Errors => l.errors
  }

  function Put(l: Lists, kind: Kind, list: seq<Entry>): Lists {
    match kind
    case Ins => l.(ins := list)
    case Outs => l.(outs := list)
    case InAndOuts => l.(inAndOuts := list)
    case Errors => l.(errors := list)
  }

  /** The events somebody waits for. */
  function Interest(l: Lists): bv16 {
    Events(l.ins != [], l.outs != [], l.inAndOuts != [], l.errors != [])
  }

  function Events(ins: bool, outs: bool, both: bool, errors: bool): bv16 {
    If(ins, POLLIN) | If(outs, POLLOUT) | If(both, POLLIN | POLLOUT) | If(errors, POLLERR)
  }

  lemma FewerEvents(i': bool, o': bool, b': bool, e': bool, i: bool, o: bool, b: bool, e: bool, promised: bv16)
    requires (i' ==> i) && (o' ==> o) && (b' ==> b) && (e' ==> e) && Within(Events(i, o, b, e), promised)
    ensures Within(Events(i', o', b', e'), promised)
  {
  }

  /** The events that entries of one list wait for. */
  function WantedEvents(kind: Kind): bv16 {
    match kind
    case Ins => POLLIN
    case Outs => POLLOUT
    case InAndOuts => POLLIN | POLLOUT
    case Errors => POLLERR
  }

  /** The interest bit by bit, and what a poll call asks for. */
  lemma InterestInBits(l: Lists, wanted: bv16)
    ensures Interest(l) & 0x01 != 0 <==> l.ins != [] || l.inAndOuts != []
    ensures Interest(l) & 0x04 != 0 <==> l.outs != [] || l.inAndOuts != []
    ensures Interest(l) & 0x08 != 0 <==> l.errors != []
    ensures Interest(l) & !0x0d == 0
    ensures WantedEvents(KindOf(wanted)) == if wanted & 0x05 != 0 then wanted & 0x05 else 0x08
  {
  }

  /** A list that may have become longer adds at most its own events to the interest. */
  lemma PutMore(l: Lists, kind: Kind, list: seq<Entry>, promised: bv16)
    requires Within(Interest(l), promised)
    ensures Within(Interest(Put(l, kind, list)), promised | WantedEvents(kind))
  {
    MoreEvents(l.ins != [], l.outs != [], l.inAndOuts != [], l.errors != [], kind, list != [], promised);
  }

  function If(b: bool, events: bv16): bv16 {
    if b then events else 0
  }

  lemma AddedEvents(i: bool, o: bool, b: bool, e: bool, kind: Kind, x: bool)
    ensures Within(Events(if kind.Ins? then x else i, if kind.Outs? then x else o,
                          if kind.InAndOuts? then x else b, if kind.Errors? then x else e),
                   Events(i, o, b, e) | WantedEvents(kind))
  {
  }

  lemma WithinMore(a: bv16, b: bv16, promised: bv16, more: bv16)
    requires Within(a, b | more) && Within(b, promised)
    ensures Within(a, promised | more)
  {
  }

  lemma MoreEvents(i: bool, o: bool, b: bool, e: bool, kind: Kind, x: bool, promised: bv16)
    requires Within(Events(i, o, b, e), promised)
    ensures Within(Events(if kind.Ins? then x else i, if kind.Outs? then x else o,
                          if kind.InAndOuts? then x else b, if kind.Errors? then x else e),
                   promised | WantedEvents(kind))
  {
    AddedEvents(i, o, b, e, kind, x);
    WithinMore(Events(if kind.Ins? then x else i, if kind.Outs? then x else o,
                      if kind.InAndOuts? then x else b, if kind.Errors? then x else e),
               Events(i, o, b, e), promised, WantedEvents(kind));
  }

  /** A list that was not empty before adds none. */
  lemma PutNoMore(l: Lists, kind: Kind, list: seq<Entry>, promised: bv16)
    requires Within(Interest(l), promised) && (list != [] ==> Select(l, kind) != [])
    ensures Within(Interest(Put(l, kind, list)), promised)
  {
    InterestShrinks(Put(l, kind, list), l, promised);
  }

  lemma SelectPut(l: Lists, kind: Kind, list: seq<Entry>)
    ensures Select(Put(l, kind, list), kind) == list
  {
  }

  lemma PutTwice(l: Lists, kind: Kind, list: seq<Entry>, again: seq<Entry>)
    ensures Put(Put(l, kind, list), kind, again) == Put(l, kind, again)
  {
  }

  predicate Within(a: bv16, b: bv16) {
    a & !b == 0
  }

  function Wakes(entries: seq<Entry>, revents: bv16): (w: seq<Wake>)
    ensures |w| == |entries| && forall k | 0 <= k < |w| :: w[k] == Wake(entries[k], revents)
  {
    if entries == [] then [] else [Wake(entries[0], revents)] + Wakes(entries[1..], revents)
  }

  // ------------------------------------------------------------------ the kernel

  datatype Op = ADD | MOD | DEL

  /** An epoll instance: per descriptor the registered mask. A call for a descriptor in the
      wrong state fails, any other call may fail too (`willing` says whether it does). */
  class Epoll {
    var registered: map<int, bv32>
    ghost var misused: bool

    constructor ()
      ensures registered == map[] && !misused
    {
      registered, misused := map[], false;
    }

    method Ctl(op: Op, fd: int, events: bv32, willing: bool) returns (res: int)
      modifies this
      ensures misused == (old(misused) || (op == ADD) == (fd in old(registered)))
      ensures res == 0 || res == -1
      ensures res == 0 <==> willing && (op == ADD) == (fd !in old(registered))
      ensures registered ==
        if res != 0 then old(registered) else if op == DEL then old(registered) - {fd} else old(registered)[fd := events]
    {
      misused := misused || (op == ADD) == (fd in registered);
      if !willing || (op == ADD) == (fd in registered) {
        return -1;
      }
      registered := if op == DEL then registered - {fd} else registered[fd := events];
      res := 0;
    }

    /** addEvent: a descriptor all of whose promised events are new is taken to be new itself. */
    method AddEvent(fd: int, event: bv16, promiseEvent: bv16, willing: bool) returns (ok: bool)
      modifies this
      ensures misused == (old(misused) || (event == promiseEvent) == (fd in old(registered)))
      ensures ok <==> willing && (event == promiseEvent) == (fd !in old(registered))
      ensures registered == if ok then old(registered)[fd := EpollMask(promiseEvent) | EPOLLET] else old(registered)
    {
      var events := PollEvent2EpollEvent(promiseEvent);
      var op := if event == promiseEvent then ADD else MOD;
      var res := Ctl(op, fd, events | EPOLLET, willing);
      ok := res == 0;
    }

    method DelEvent(fd: int, event: bv16, promiseEvent: bv16, willing: bool) returns (ok: bool)
      modifies this
      ensures misused == (old(misused) || fd !in old(registered))
      ensures ok <==> willing && fd in old(registered)
      ensures registered ==
        if !ok then old(registered)
        else if promiseEvent == 0 then old(registered) - {fd}
        else old(registered)[fd := EpollMask(promiseEvent) | EPOLLET]
    {
      var events := PollEvent2EpollEvent(promiseEvent);
      var op := if promiseEvent == 0 then DEL else MOD;
      var res := Ctl(op, fd, events | EPOLLET, willing);
      ok := res == 0;
    }
  }

  /** The kernel has exactly these promised events of the descriptor. */
  predicate Registers(registered: map<int, bv32>, fd: int, event: bv16) {
    && Within(event, IN_OUT_ERR)
    && (event == 0 ==> fd !in registered)
    && (event != 0 ==> fd in registered && registered[fd] == EpollMask(event) | EPOLLET)
  }

  class ReactorElement {
    const fd: int
    var ins: seq<Entry>
    var outs: seq<Entry>
    var inAndOuts: seq<Entry>
    var errors: seq<Entry>
    var event: bv16
    ghost var woken: seq<Wake>

    constructor (fd: int)
      ensures this.fd == fd && ins == outs == inAndOuts == errors == [] && event == 0 && woken == []
    {
      this.fd := fd;
      ins, outs, inAndOuts, errors, event, woken := [], [], [], [], 0, [];
    }

    function View(): Lists
      reads this
    {
      Lists(ins, outs, inAndOuts, errors)
    }

    /** Every waiting entry's events are promised, and the kernel has exactly the promised
        events registered, and no registration when there are none. */
    ghost predicate Valid(epoll: Epoll)
      reads this, epoll
    {
      Within(Interest(View()), event) && InStep(epoll)
    }

    ghost predicate InStep(epoll: Epoll)
      reads `event, epoll
    {
      !epoll.misused && Registers(epoll.registered, fd, event)
    }

    /** What epoll_wait can report for the descriptor covers every waiting entry. */
    lemma Covered(epoll: Epoll)
      requires Valid(epoll) && Interest(View()) != 0
      ensures fd in epoll.registered && Within(Interest(View()), PollMask(epoll.registered[fd]))
    {
    }

    /** Replaces one of the four lists. */
    method Store(kind: Kind, list: seq<Entry>)
      modifies `ins, `outs, `inAndOuts, `errors
      ensures View() == Put(old(View()), kind, list)
    {
      match kind {
        case Ins => ins := list;
        case Outs => outs := list;
        case InAndOuts => inAndOuts := list;
        case Errors => errors := list;
      }
    }

    /** Asks the kernel for the events that are not promised yet. */
    method Promise(epoll: Epoll, pollEvent: bv16, willing: bool) returns (ok: bool)
      requires InStep(epoll)
      modifies `event, epoll
      ensures InStep(epoll)
      ensures event == if ok then old(event) | WantedEvents(KindOf(pollEvent)) else old(event)
      ensures ok <==> willing || Within(WantedEvents(KindOf(pollEvent)), old(event))
      ensures epoll.registered - {fd} == old(epoll.registered) - {fd}
    {
      var addEvent := pollEvent & (POLLIN | POLLOUT);
      if addEvent == 0 {
        addEvent := addEvent | POLLERR;
      }
      var promiseEvent := event | addEvent;
      addEvent := promiseEvent & !event;
      ok := true;
      if promiseEvent != event {
        ok := epoll.AddEvent(fd, addEvent, promiseEvent, willing);
        if ok {
          event := promiseEvent;
        }
      }
    }

    /** Adds a waiting entry and promises its events; when the kernel refuses, the entry is
        taken out again. */
    method Add(epoll: Epoll, pollEvent: bv16, entry: Entry, expired: set<nat>, willing: bool) returns (ok: bool)
      requires Valid(epoll)
      modifies this, epoll
      ensures Valid(epoll) && woken == old(woken)
      ensures event == if ok then old(event) | WantedEvents(KindOf(pollEvent)) else old(event)
      ensures ok <==> willing || Within(WantedEvents(KindOf(pollEvent)), old(event))
      ensures View() == Put(old(View()), KindOf(pollEvent),
        var longer := Unexpired(Select(old(View()), KindOf(pollEvent)), expired) + [entry];
        if ok then longer else Rollback(longer, entry))
      ensures !ok && old(NewSlot(Select(View(), KindOf(pollEvent)), entry)) ==>
        View() == Put(old(View()), KindOf(pollEvent), Unexpired(Select(old(View()), KindOf(pollEvent)), expired))
      ensures ok ==> AddedBehind(Select(old(View()), KindOf(pollEvent)), expired, Select(View(), KindOf(pollEvent)), entry)
      ensures epoll.registered - {fd} == old(epoll.registered) - {fd}
    {
      ghost var before := View();
      var kind := KindOf(pollEvent);
      Enlist(kind, entry, expired);
      ok := Promise(epoll, pollEvent, willing);
      if !ok {
        TakeOut(before, kind, entry, expired);
      }
    }

    /** Removes the expired entries of one list and puts a new one behind the others. */
    method Enlist(kind: Kind, entry: Entry, expired: set<nat>)
      requires Within(Interest(View()), event)
      modifies `ins, `outs, `inAndOuts, `errors
      ensures View() == Put(old(View()), kind, Unexpired(Select(old(View()), kind), expired) + [entry])
      ensures Within(Interest(View()), event | WantedEvents(kind))
      ensures AddedBehind(Select(old(View()), kind), expired, Select(View(), kind), entry)
    {
      AddedIs(View(), kind, expired, entry, event);
      Store(kind, Unexpired(Select(View(), kind), expired) + [entry]);
    }

    /** Takes a refused entry out again. */
    method TakeOut(ghost before: Lists, kind: Kind, entry: Entry, ghost expired: set<nat>)
      requires View() == Put(before, kind, Unexpired(Select(before, kind), expired) + [entry])
      requires Within(Interest(before), event)
      modifies `ins, `outs, `inAndOuts, `errors
      ensures View() == Put(before, kind, Rollback(Unexpired(Select(before, kind), expired) + [entry], entry))
      ensures NewSlot(Select(before, kind), entry) ==> View() == Put(before, kind, Unexpired(Select(before, kind), expired))
      ensures Within(Interest(View()), event)
    {
      AddedIs(before, kind, expired, entry, event);
      SelectPut(before, kind, Unexpired(Select(before, kind), expired) + [entry]);
      Store(kind, Rollback(Select(View(), kind), entry));
    }

    /** One kind of list in trigger: its entries are woken with the events that concern them,
        or else `keep` stays promised. */
    method TriggerKind(entries: seq<Entry>, pollEvent: bv16, interest: bv16, keep: bv16, promise: bv16)
      returns (rest: seq<Entry>, promise': bv16)
      modifies `woken
      ensures rest == Left(entries, pollEvent, interest)
      ensures woken == old(woken) + WokenNow(entries, pollEvent, interest)
      ensures promise' == promise | if rest != [] then keep else 0
    {
      rest, promise' := entries, promise;
      var revents := Concerns(pollEvent, interest);
      if revents != 0 {
        woken := woken + Wakes(entries, revents);
        rest := [];
      } else if entries != [] {
        promise' := promise | keep;
      }
    }

    method TriggerLists(pollEvent: bv16) returns (promiseEvent: bv16)
      modifies `ins, `outs, `inAndOuts, `errors, `woken
      ensures View() == AfterEvent(old(View()), pollEvent)
      ensures woken == WokenBy(old(woken), old(View()), pollEvent)
      ensures promiseEvent == Interest(View())
    {
      promiseEvent := 0;
      ins, promiseEvent := TriggerKind(ins, pollEvent, POLLIN, POLLIN, promiseEvent);
      outs, promiseEvent := TriggerKind(outs, pollEvent, POLLOUT, POLLOUT, promiseEvent);
      inAndOuts, promiseEvent := TriggerKind(inAndOuts, pollEvent, POLLIN | POLLOUT, POLLIN | POLLOUT, promiseEvent);
      errors, promiseEvent := TriggerKind(errors, pollEvent, 0, POLLERR, promiseEvent);
    }

    /** Gives up the promised events outside `promiseEvent`, unless the kernel refuses. */
    method GiveUp(epoll: Epoll, promiseEvent: bv16, willing: bool)
      requires InStep(epoll) && Within(promiseEvent, event)
      modifies `event, epoll
      ensures InStep(epoll)
      ensures event == if willing then promiseEvent else old(event)
      ensures epoll.registered - {fd} == old(epoll.registered) - {fd}
    {
      var delEvent := event & !promiseEvent;
      if promiseEvent != event {
        var ok := epoll.DelEvent(fd, delEvent, promiseEvent, willing);
        if ok {
          event := promiseEvent;
        }
      }
    }

    /** An event reported by the kernel: the entries it concerns are woken, and the events
        nobody waits for any more are given up, unless the kernel refuses. */
    method Trigger(epoll: Epoll, pollEvent: bv16, willing: bool)
      requires Valid(epoll)
      modifies this, epoll
      ensures Valid(epoll)
      ensures View() == AfterEvent(old(View()), pollEvent)
      ensures woken == WokenBy(old(woken), old(View()), pollEvent)
      ensures EventInBits(pollEvent, old(View()), View(), old(woken), woken)
      ensures event == if willing then Interest(View()) else old(event)
      ensures epoll.registered - {fd} == old(epoll.registered) - {fd}
    {
      AfterEventWithin(View(), pollEvent, event);
      TriggersInBits(View(), pollEvent, woken);
      var promiseEvent := TriggerLists(pollEvent);
      GiveUp(epoll, promiseEvent, willing);
    }

    /** Closing the descriptor wakes everybody; the kernel forgets the registration by itself. */
    method OnClose()
      modifies this
      ensures View() == Lists([], [], [], []) && event == old(event)
      ensures woken == WokenBy(old(woken), old(View()), POLLNVAL)
      ensures EventInBits(0x20, old(View()), View(), old(woken), woken)
    {
      TriggersInBits(View(), POLLNVAL, woken);
      var promiseEvent := TriggerLists(POLLNVAL);
    }
  }

  const ERR_EVENT: bv16 := POLLERR | POLLHUP | POLLNVAL

  /** The part of an event that concerns those who wait for `interest`; errors concern all. */
  function Concerns(pollEvent: bv16, interest: bv16): bv16 {
    pollEvent & (interest | ERR_EVENT)
  }

  /** What stays of a list when an event comes in. */
  function Left(entries: seq<Entry>, pollEvent: bv16, interest: bv16): seq<Entry> {
    if Concerns(pollEvent, interest) != 0 then [] else entries
  }

  /** What of a list is woken, and with which events. */
  function WokenNow(entries: seq<Entry>, pollEvent: bv16, interest: bv16): seq<Wake> {
    if Concerns(pollEvent, interest) != 0 then Wakes(entries, Concerns(pollEvent, interest)) else []
  }

  function AfterEvent(l: Lists, pollEvent: bv16): Lists {
    Lists(Left(l.ins, pollEvent, POLLIN), Left(l.outs, pollEvent, POLLOUT),
          Left(l.inAndOuts, pollEvent, POLLIN | POLLOUT), Left(l.errors, pollEvent, 0))
  }

  function WokenBy(before: seq<Wake>, l: Lists, pollEvent: bv16): seq<Wake> {
    before + WokenNow(l.ins, pollEvent, POLLIN) + WokenNow(l.outs, pollEvent, POLLOUT) +
    WokenNow(l.inAndOuts, pollEvent, POLLIN | POLLOUT) + WokenNow(l.errors, pollEvent, 0)
  }

  /** The wake-ups of one list: all of its entries if there is anything to tell, else none. */
  ghost predicate Told(entries: seq<Entry>, revents: bv16, wakes: seq<Wake>) {
    |wakes| == (if revents == 0 then 0 else |entries|) &&
    forall k | 0 <= k < |wakes| :: wakes[k] == Wake(entries[k], revents)
  }

  /** What an event does, bit by bit. An error empties all four lists; otherwise a list is emptied
      exactly by its own bits. Every entry of an emptied list is woken once, with its own bits of
      the event and the errors. */
  ghost predicate EventInBits(ev: bv16, l: Lists, l': Lists, woken: seq<Wake>, woken': seq<Wake>) {
    var error := ev & 0x38;
    && l'.ins == (if error != 0 || ev & 0x01 != 0 then [] else l.ins)
    && l'.outs == (if error != 0 || ev & 0x04 != 0 then [] else l.outs)
    && l'.inAndOuts == (if error != 0 || ev & 0x05 != 0 then [] else l.inAndOuts)
    && l'.errors == (if error != 0 then [] else l.errors)
    && exists i, o, b, e ::
         && woken' == woken + i + o + b + e
         && Told(l.ins, (ev & 0x01) | error, i) && Told(l.outs, (ev & 0x04) | error, o)
         && Told(l.inAndOuts, (ev & 0x05) | error, b) && Told(l.errors, error, e)
  }

  lemma OwnAndError(ev: bv16, own: bv16)
    ensures Concerns(ev, own) == (ev & own) | (ev & 0x38)
  {
    assert ERR_EVENT == 0x38;
    BitsSplit(ev, own, 0x38);
  }

  lemma BitsSplit(ev: bv16, a: bv16, b: bv16)
    ensures ev & (a | b) == (ev & a) | (ev & b)
  {
  }

  lemma ErrorBits(ev: bv16)
    ensures Concerns(ev, POLLIN) == (ev & 0x01) | (ev & 0x38)
    ensures Concerns(ev, POLLOUT) == (ev & 0x04) | (ev & 0x38)
    ensures Concerns(ev, POLLIN | POLLOUT) == (ev & 0x05) | (ev & 0x38)
    ensures Concerns(ev, 0) == ev & 0x38
  {
    OwnAndError(ev, 0x01);
    OwnAndError(ev, 0x04);
    OwnAndError(ev, 0x05);
    OwnAndError(ev, 0);
  }

  lemma EitherBits(a: bv16, b: bv16)
    ensures a | b == 0 <==> a == 0 && b == 0
  {
  }

  lemma TriggersInBits(l: Lists, ev: bv16, woken: seq<Wake>)
    ensures EventInBits(ev, l, AfterEvent(l, ev), woken, WokenBy(woken, l, ev))
  {
    ErrorBits(ev);
    EitherBits(ev & 0x01, ev & 0x38);
    EitherBits(ev & 0x04, ev & 0x38);
    EitherBits(ev & 0x05, ev & 0x38);
    var i, o := WokenNow(l.ins, ev, POLLIN), WokenNow(l.outs, ev, POLLOUT);
    var b, e := WokenNow(l.inAndOuts, ev, POLLIN | POLLOUT), WokenNow(l.errors, ev, 0);
    assert Told(l.ins, (ev & 0x01) | (ev & 0x38), i) && Told(l.outs, (ev & 0x04) | (ev & 0x38), o);
    assert Told(l.inAndOuts, (ev & 0x05) | (ev & 0x38), b) && Told(l.errors, ev & 0x38, e);
    assert WokenBy(woken, l, ev) == woken + i + o + b + e;
  }

  /** From poll to wake-up: an entry that waits for the events it was added with is woken by an
      event if and only if that has one of them or an error, and is told exactly these. */
  lemma WokenForItsEvents(l: Lists, wanted: bv16, ev: bv16, k: nat)
    requires k < |Select(l, KindOf(wanted))|
    ensures var tell := ev & ((wanted & 0x05) | 0x38);
      && Select(AfterEvent(l, ev), KindOf(wanted)) == (if tell != 0 then [] else Select(l, KindOf(wanted)))
      && (tell != 0 ==> Wake(Select(l, KindOf(wanted))[k], tell) in WokenBy([], l, ev))
  {
    ErrorBits(ev);
    TellBits(wanted, ev);
    var i, o := WokenNow(l.ins, ev, POLLIN), WokenNow(l.outs, ev, POLLOUT);
    var b, e := WokenNow(l.inAndOuts, ev, POLLIN | POLLOUT), WokenNow(l.errors, ev, 0);
    var kind := KindOf(wanted);
    var own := if kind.Ins? then i else if kind.Outs? then o else if kind.InAndOuts? then b else e;
    if own != [] {
      assert own[k] == Wake(Select(l, kind)[k], ev & ((wanted & 0x05) | 0x38));
      assert own[k] in own;
    }
  }

  lemma TellBits(wanted: bv16, ev: bv16)
    ensures Concerns(ev, match KindOf(wanted) case Ins => POLLIN case Outs => POLLOUT case InAndOuts => POLLIN | POLLOUT case Errors => 0)
         == ev & ((wanted & 0x05) | 0x38)
  {
  }

  lemma AfterEventWithin(l: Lists, pollEvent: bv16, promised: bv16)
    requires Within(Interest(l), promised)
    ensures Within(Interest(AfterEvent(l, pollEvent)), promised)
  {
    InterestShrinks(AfterEvent(l, pollEvent), l, promised);
  }

  lemma InterestShrinks(l': Lists, l: Lists, promised: bv16)
    requires Within(Interest(l), promised)
    requires l'.ins != [] ==> l.ins != []
    requires l'.outs != [] ==> l.outs != []
    requires l'.inAndOuts != [] ==> l.inAndOuts != []
    requires l'.errors != [] ==> l.errors != []
    ensures Within(Interest(l'), promised)
  {
    FewerEvents(l'.ins != [], l'.outs != [], l'.inAndOuts != [], l'.errors != [],
                l.ins != [], l.outs != [], l.inAndOuts != [], l.errors != [], promised);
  }

  /** No waiter is forgotten and none is woken twice or for nothing: each is either left where
      it was, or woken with a non-empty part of the event. */
  lemma LeftOrWoken(entries: seq<Entry>, pollEvent: bv16, interest: bv16)
    ensures |Left(entries, pollEvent, interest)| + |WokenNow(entries, pollEvent, interest)| == |entries|
    ensures forall w | w in WokenNow(entries, pollEvent, interest) :: w.entry in entries && w.revents != 0
    ensures forall e | e in entries :: e in Left(entries, pollEvent, interest) ||
              Wake(e, Concerns(pollEvent, interest)) in WokenNow(entries, pollEvent, interest)
    ensures Left(entries, pollEvent, interest) != [] ==> pollEvent & interest == 0
  {
    var w := WokenNow(entries, pollEvent, interest);
    forall e | e in entries && Concerns(pollEvent, interest) != 0
      ensures Wake(e, Concerns(pollEvent, interest)) in w
    {
      var k :| 0 <= k < |entries| && entries[k] == e;
      assert w[k] == Wake(e, Concerns(pollEvent, interest));
    }
  }

  lemma RollbackLength(entries: seq<Entry>, e: Entry)
    ensures e in entries ==> |Rollback(entries, e)| == |entries| - 1
  {
  }

  lemma {:induction false} UnexpiredLength(entries: seq<Entry>, expired: set<nat>)
    ensures |Unexpired(entries, expired)| <= |entries|
  {
    if entries != [] {
      UnexpiredLength(entries[1..], expired);
    }
  }
}
