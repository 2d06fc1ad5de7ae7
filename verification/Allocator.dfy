/** coordinator.py's overlay address allocator and the file it keeps its map in, over runs
    with failed saves, crashes and restarts. */
module Allocator {
  import Cidr
  import opened Wrappers

  type Key = string
  type Addr = x: nat | x < 0x1_0000_0000

  const BASE: Addr := 0x6440_0000          // 100.64.0.0
  const SIZE: nat := 0x40_0000             // a /10
  const CAPACITY: nat := 4_161_535

  /** `OVERLAY_NET.hosts()` without .0 and .255 endings and without the first host. */
  predicate Allocatable(a: Addr) {
    BASE < a < BASE + SIZE - 1 && a % 256 != 0 && a % 256 != 255 && a != BASE + 1
  }

  /** Exactly the addresses of the mesh's overlay network that end in neither .0 nor .255 and
      are not its .1 anchor. */
  lemma AllocatableExactly(a: Addr)
    ensures Allocatable(a) <==> Cidr.In(a, Cidr.Overlay()) && a % 256 != 0 && a % 256 != 255 && a != 0x6440_0001
  {
    hide Cidr.In, Cidr.Overlay;
    Cidr.OverlayRange(a);
  }

  type Leases = map<Key, Addr>

  ghost predicate Injective(m: Leases) {
    forall k, l :: k in m && l in m && m[k] == m[l] ==> k == l
  }

  ghost predicate Sound(m: Leases) {
    Injective(m) && forall k :: k in m ==> Allocatable(m[k])
  }

  ghost predicate Extends(big: Leases, small: Leases) {
    forall k :: k in small ==> k in big && big[k] == small[k]
  }

  // ----- how many addresses there are -----

  ghost function Below(n: nat): set<Addr>
    requires n <= SIZE
  {
    set a: Addr | BASE <= a < BASE + n && Allocatable(a)
  }

  function CountBelow(n: nat): int {
    var r := n % 256;
    254 * (n / 256) + (if r == 0 then 0 else r - 1) - (if n > 1 then 1 else 0)
  }

  lemma {:induction false} BelowCount(n: nat)
    requires n <= SIZE
    ensures |Below(n)| == CountBelow(n)
  {
    if n == 0 {
      assert Below(0) == {};
    } else {
      BelowCount(n - 1);
      var a: Addr := BASE + n - 1;
      BlockStep(n - 1);
      if Allocatable(a) {
        assert Below(n) == Below(n - 1) + {a};
      } else {
        assert Below(n) == Below(n - 1);
      }
    }
  }

  lemma BlockStep(n: nat)
    requires n < SIZE
    ensures CountBelow(n + 1) == CountBelow(n) + if Allocatable(BASE + n) then 1 else 0
  {
    assert (BASE + n) % 256 == n % 256;
    if n % 256 == 255 {
      assert (n + 1) / 256 == n / 256 + 1 && (n + 1) % 256 == 0;
    } else {
      assert (n + 1) / 256 == n / 256 && (n + 1) % 256 == n % 256 + 1;
    }
  }

  /** There are 4,161,535 allocatable addresses. */
  lemma CapacityIsExact()
    ensures |Below(SIZE)| == CAPACITY
    ensures forall a: Addr :: a in Below(SIZE) <==> Allocatable(a)
  {
    BelowCount(SIZE);
  }

  lemma {:induction false} InjectiveValues(m: Leases)
    requires Injective(m)
    ensures |m.Values| == |m|
    decreases |m|
  {
    if m == map[] {
      assert m.Values == {};
    } else {
      var k :| k in m;
      RemoveLease(m, k);
      InjectiveValues(m - {k});
    }
  }

  lemma RemoveLease(m: Leases, k: Key)
    requires Injective(m) && k in m
    ensures Injective(m - {k})
    ensures |m| == |m - {k}| + 1 && |m.Values| == |(m - {k}).Values| + 1
  {
    var rest := m - {k};
    assert m.Keys == rest.Keys + {k};
    assert m.Values == rest.Values + {m[k]} by {
      forall v | v in m.Values ensures v in rest.Values + {m[k]} {
        var l :| l in m && m[l] == v;
        if l != k { assert l in rest; }
      }
    }
    assert m[k] !in rest.Values;
  }

  lemma SubsetOfSameSize<T>(a: set<T>, b: set<T>)
    requires a <= b && |a| == |b|
    ensures a == b
  {
    if x :| x in b && x !in a {
      SubsetSize(a, b - {x});
    }
  }

  lemma {:induction false} SubsetSize<T>(a: set<T>, b: set<T>)
    requires a <= b
    ensures |a| <= |b|
  {
    if x :| x in a { SubsetSize(a - {x}, b - {x}); }
  }

  /** All addresses are taken exactly when there are as many leases as addresses. */
  lemma FullExactly(m: Leases)
    requires Sound(m)
    ensures |m| <= CAPACITY
    ensures |m| == CAPACITY <==> forall a: Addr :: Allocatable(a) ==> a in m.Values
  {
    CapacityIsExact();
    InjectiveValues(m);
    assert m.Values <= Below(SIZE);
    SubsetSize(m.Values, Below(SIZE));
    if |m| == CAPACITY { SubsetOfSameSize(m.Values, Below(SIZE)); }
    if forall a: Addr :: Allocatable(a) ==> a in m.Values { assert m.Values == Below(SIZE); }
  }

  lemma LeaseKeepsSound(m: Leases, k: Key, a: Addr)
    requires Sound(m) && k !in m && Allocatable(a) && a !in m.Values
    ensures Sound(m[k := a]) && Extends(m[k := a], m)
  {
  }

  // ----- the file -----

  /** What a file can hold: a whole map, or the beginning of one. */
  datatype Content = Whole(leases: Leases) | Torn

  /** What becomes of the next save: it may fail or the process may die, in either step. */
  datatype Fate = Fine | WriteFails | RenameFails | DiesWriting | DiesBetween | DiesAfter

  datatype Outcome = Done | Raised | Died

  /** The state file and the temporary file beside it. */
  class Disk {
    var file: Option<Content>
    var tmp: Option<Content>

    constructor ()
      ensures file == None && tmp == None
    {
      file, tmp := None, None;
    }

    /** Write the temporary file; cut short, it holds only the beginning. */
    method WriteTmp(m: Leases, fate: Fate) returns (o: Outcome)
      modifies this`tmp
      ensures tmp == Some(if fate == WriteFails || fate == DiesWriting then Torn else Whole(m))
      ensures o == match fate case WriteFails => Raised case DiesWriting => Died case DiesBetween => Died case _ => Done
    {
      if fate == WriteFails || fate == DiesWriting {
        tmp := Some(Torn);
        return if fate == WriteFails then Raised else Died;
      }
      tmp := Some(Whole(m));
      o := if fate == DiesBetween then Died else Done;
    }

    /** Put the temporary file in the place of the state file. */
    method Rename(fate: Fate) returns (o: Outcome)
      modifies this
      ensures fate == RenameFails ==> file == old(file) && tmp == old(tmp)
      ensures fate != RenameFails ==> file == old(tmp) && tmp == None
      ensures o == match fate case RenameFails => Raised case DiesAfter => Died case _ => Done
    {
      if fate == RenameFails { return Raised; }
      file, tmp := tmp, None;
      o := if fate == DiesAfter then Died else Done;
    }
  }

  /** `_load`: a missing file, or one that does not parse, is an empty map. */
  function Loaded(file: Option<Content>): Leases {
    if file.Some? && file.value.Whole? then file.value.leases else map[]
  }

  // ----- what a run does, as a function of its events -----

  datatype Event = Ask(key: Key, fate: Fate) | Crash

  datatype Answer = Given(addr: Addr) | Exhausted | NoAnswer

  /** The allocator's map, and the one the state file holds. */
  datatype State = State(mem: Leases, file: Leases)

  const START := State(map[], map[])

  predicate Saves(fate: Fate) { fate == Fine || fate == DiesAfter }

  predicate Dies(fate: Fate) { fate == DiesWriting || fate == DiesBetween || fate == DiesAfter }

  ghost predicate IsLeastFree(m: Leases, a: Addr) {
    Allocatable(a) && a !in m.Values && forall b: Addr :: Allocatable(b) && b < a ==> b in m.Values
  }

  ghost function LeastFree(m: Leases): (r: Option<Addr>)
    ensures r.Some? ==> IsLeastFree(m, r.value)
    ensures r.None? ==> forall a: Addr :: !IsLeastFree(m, a)
  {
    if a: Addr :| IsLeastFree(m, a) then Some(a) else None
  }

  ghost function After(s: State, e: Event): State {
    match e
    case Crash => State(s.file, s.file)
    case Ask(key, fate) =>
      if key in s.mem || LeastFree(s.mem).None? then s
      else
        var m := s.mem[key := LeastFree(s.mem).value];
        var f := if Saves(fate) then m else s.file;
        State(if Dies(fate) then f else m, f)
  }

  ghost function Reply(s: State, e: Event): Answer {
    match e
    case Crash => NoAnswer
    case Ask(key, fate) =>
      if key in s.mem then Given(s.mem[key])
      else if LeastFree(s.mem).None? then Exhausted
      else if Dies(fate) then NoAnswer
      else Given(LeastFree(s.mem).value)
  }

  ghost function StateAfter(s: State, events: seq<Event>): State {
    if events == [] then s else After(StateAfter(s, events[..|events| - 1]), events[|events| - 1])
  }

  ghost function Answers(s: State, events: seq<Event>): (outs: seq<Answer>)
    ensures |outs| == |events|
  {
    if events == [] then []
    else
      var n := |events| - 1;
      Answers(s, events[..n]) + [Reply(StateAfter(s, events[..n]), events[n])]
  }

  // ----- the allocator -----

  class IPAllocator {
    const disk: Disk
    var leases: Leases

    /** The state file is missing or whole, whatever the temporary file is. */
    ghost predicate Valid()
      reads this, disk
    {
      && Sound(leases) && Sound(Loaded(disk.file)) && Extends(leases, Loaded(disk.file))
      && (disk.file.Some? ==> disk.file.value.Whole?)
    }

    ghost function View(): State
      reads this, disk
    {
      State(leases, Loaded(disk.file))
    }

    constructor (disk: Disk)
      requires Sound(Loaded(disk.file)) && (disk.file.Some? ==> disk.file.value.Whole?)
      ensures Valid() && this.disk == disk && View() == State(Loaded(disk.file), Loaded(disk.file))
    {
      this.disk := disk;
      leases := Loaded(disk.file);
    }

    /** Write beside the state file, then rename over it. An error is only reported. */
    method Save(fate: Fate) returns (died: bool)
      modifies disk
      ensures died == Dies(fate)
      ensures disk.file == if Saves(fate) then Some(Whole(leases)) else old(disk.file)
    {
      var o := disk.WriteTmp(leases, fate);
      if o == Done { o := disk.Rename(fate); }
      died := o == Died;
    }

    /** Exhausted is the RuntimeError; NoAnswer is a process that died in the save. */
    method Get(key: Key, fate: Fate) returns (r: Answer)
      requires Valid()
      modifies this, disk
      ensures Valid() || (r.NoAnswer? && Sound(Loaded(disk.file)) && (disk.file.Some? ==> disk.file.value.Whole?))
      ensures r == Reply(old(View()), Ask(key, fate))
      ensures Loaded(disk.file) == After(old(View()), Ask(key, fate)).file
      ensures !r.NoAnswer? ==> View() == After(old(View()), Ask(key, fate))
      ensures key in old(leases) ==> r == Given(old(leases)[key])
      // a new key gets the least free address
      ensures key !in old(leases) && r.Given? ==> IsLeastFree(old(leases), r.addr) && leases == old(leases)[key := r.addr]
      // and is refused exactly when every address is taken
      ensures r.Exhausted? <==> key !in old(leases) && |old(leases)| == CAPACITY
    {
      hide Sound, Extends;
      FullExactly(leases);
      if key in leases { return Given(leases[key]); }
      var used := leases.Values;
      for host: nat := BASE + 1 to BASE + SIZE - 1
        invariant leases == old(leases) && disk.file == old(disk.file) && disk.tmp == old(disk.tmp)
        invariant forall b: Addr :: Allocatable(b) && b < host ==> b in used
      {
        var ip: Addr := host;
        if ip % 256 != 0 && ip % 256 != 255 && ip !in used && ip != BASE + 1 {
          assert IsLeastFree(leases, ip);
          LeastFreeUnique(leases, ip);
          LeaseKeepsSound(leases, key, ip);
          ExtendsTrans(leases[key := ip], leases, Loaded(disk.file));
          ExtendsItself(leases[key := ip], Loaded(disk.file));
          leases := leases[key := ip];
          var died := Save(fate);
          return if died then NoAnswer else Given(ip);
        }
      }
      r := Exhausted;
    }
  }

  lemma LeastFreeUnique(m: Leases, a: Addr)
    requires IsLeastFree(m, a)
    ensures LeastFree(m) == Some(a)
  {
    var b := LeastFree(m).value;
    assert a <= b <= a;
  }

  lemma ExtendsItself(m: Leases, n: Leases)
    ensures Extends(m, m) && Extends(n, n)
  {
  }

  lemma ExtendsTrans(a: Leases, b: Leases, c: Leases)
    requires Extends(a, b) && Extends(b, c)
    ensures Extends(a, c)
  {
  }

  /** Every run of requests, failed saves, deaths in a save and crashes: one answer for each
      event, and a state file that is whole at the end. */
  method Run(events: seq<Event>) returns (outs: seq<Answer>, disk: Disk)
    ensures outs == Answers(START, events)
    ensures Loaded(disk.file) == StateAfter(START, events).file && (disk.file.Some? ==> disk.file.value.Whole?)
  {
    hide Sound, Extends, After, Reply;
    SoundEmpty();
    disk := new Disk();
    var alloc := new IPAllocator(disk);
    outs := [];
    for i := 0 to |events|
      invariant alloc.Valid() && alloc.disk == disk && fresh(disk) && fresh(alloc)
      invariant alloc.View() == StateAfter(START, events[..i]) && outs == Answers(START, events[..i])
    {
      assert events[..i + 1][..i] == events[..i];
      ghost var s := alloc.View();
      var out := NoAnswer;
      match events[i] {
        case Crash =>
          alloc := new IPAllocator(disk);
        case Ask(key, fate) =>
          out := alloc.Get(key, fate);
          if out.NoAnswer? { alloc := new IPAllocator(disk); }
      }
      StepOf(s, events[i]);
      outs := outs + [out];
    }
    assert events[..|events|] == events;
  }

  lemma StepOf(s: State, e: Event)
    ensures e.Crash? ==> After(s, e) == State(s.file, s.file) && Reply(s, e) == NoAnswer
    ensures Reply(s, e).NoAnswer? ==> After(s, e).mem == After(s, e).file
  {
  }

  lemma SoundEmpty()
    ensures Sound(map[])
  {
  }

  // ----- what every run promises -----

  ghost predicate Good(s: State) { Sound(s.mem) && Sound(s.file) && Extends(s.mem, s.file) }

  lemma AfterGood(s: State, e: Event)
    requires Good(s)
    ensures Good(After(s, e)) && Extends(After(s, e).file, s.file)
  {
    hide Sound, Extends;
    ExtendsItself(s.mem, s.file);
    if e.Ask? && e.key !in s.mem && LeastFree(s.mem).Some? {
      var m := s.mem[e.key := LeastFree(s.mem).value];
      LeaseKeepsSound(s.mem, e.key, LeastFree(s.mem).value);
      ExtendsTrans(m, s.mem, s.file);
      ExtendsItself(m, m);
    }
  }

  lemma {:induction false} RunGood(s: State, events: seq<Event>)
    requires Good(s)
    ensures Good(StateAfter(s, events)) && Extends(StateAfter(s, events).file, s.file)
  {
    hide Good, After;
    if events == [] {
      GoodExtends(s);
    } else {
      var n := |events| - 1;
      RunGood(s, events[..n]);
      AfterGood(StateAfter(s, events[..n]), events[n]);
      ExtendsTrans(StateAfter(s, events).file, StateAfter(s, events[..n]).file, s.file);
    }
  }

  lemma GoodExtends(s: State)
    ensures Extends(s.file, s.file)
  {
  }

  lemma {:induction false} StateAfterConcat(s: State, a: seq<Event>, b: seq<Event>)
    ensures StateAfter(s, a + b) == StateAfter(StateAfter(s, a), b)
  {
    hide After;
    if b == [] {
      assert a + b == a;
    } else {
      assert (a + b)[..|a + b| - 1] == a + b[..|b| - 1];
      StateAfterConcat(s, a, b[..|b| - 1]);
    }
  }

  lemma {:induction false} AnswerAt(s: State, events: seq<Event>, i: nat)
    requires i < |events|
    ensures Answers(s, events)[i] == Reply(StateAfter(s, events[..i]), events[i])
  {
    hide After, Reply;
    var n := |events| - 1;
    if i < n {
      AnswerAt(s, events[..n], i);
      assert events[..n][..i] == events[..i];
    }
  }

  /** An address given out is the one its key then holds. */
  lemma GivenIsHeld(s: State, e: Event)
    requires e.Ask? && Reply(s, e).Given?
    ensures e.key in After(s, e).mem && After(s, e).mem[e.key] == Reply(s, e).addr
  {
  }

  /** After event i the file holds the lease of the key asked for. */
  ghost predicate SavedAt(events: seq<Event>, i: nat)
    requires i < |events|
  {
    events[i].Ask? && events[i].key in StateAfter(START, events[..i + 1]).file
  }

  /** A new key's address is saved exactly when the save went through; a known key's when it
      was before. In particular the first answer with a good save is a saved one. */
  lemma SavedExactly(events: seq<Event>, i: nat)
    requires i < |events| && events[i].Ask? && Answers(START, events)[i].Given?
    ensures var s := StateAfter(START, events[..i]);
            SavedAt(events, i) <==> if events[i].key in s.mem then events[i].key in s.file else Saves(events[i].fate)
  {
    hide Sound;
    AnswerAt(START, events, i);
    assert events[..i + 1][..i] == events[..i];
    SoundEmpty();
    RunGood(START, events[..i]);
  }

  /** Once saved, an address stays with its key and goes to no other, in the rest of every run. */
  lemma SavedStays(events: seq<Event>, i: nat, j: nat)
    requires i < j < |events| && events[i].Ask? && events[j].Ask? && SavedAt(events, i)
    requires Answers(START, events)[i].Given? && Answers(START, events)[j].Given?
    ensures events[i].key == events[j].key <==> Answers(START, events)[i].addr == Answers(START, events)[j].addr
  {
    hide After, Reply;
    SoundEmpty();
    AnswerAt(START, events, i);
    AnswerAt(START, events, j);
    var a, b := StateAfter(START, events[..i + 1]), StateAfter(START, events[..j]);
    var c := After(b, events[j]);
    assert events[..i + 1][..i] == events[..i] && events[..j] == events[..i + 1] + events[i + 1..j];
    RunGood(START, events[..i + 1]);
    StateAfterConcat(START, events[..i + 1], events[i + 1..j]);
    RunGood(a, events[i + 1..j]);
    AfterGood(b, events[j]);
    GivenIsHeld(StateAfter(START, events[..i]), events[i]);
    GivenIsHeld(b, events[j]);
    KeptThrough(a, b, c, events[i].key);
  }

  lemma KeptThrough(a: State, b: State, c: State, k: Key)
    requires Good(a) && Good(b) && Good(c) && Extends(b.file, a.file) && Extends(c.file, b.file) && k in a.file
    ensures k in a.mem && k in c.mem && c.mem[k] == a.mem[k] && Injective(c.mem)
  {
  }

  // ----- a restart -----

  lemma {:induction false} FreshKey(keys: set<Key>) returns (k: Key)
    ensures forall x :: x in keys ==> |x| < |k|
    decreases |keys|
  {
    if keys == {} {
      k := "";
    } else {
      var x :| x in keys;
      k := FreshKey(keys - {x});
      var long := if |x| < |k| then k else x + "+";
      assert forall y :: y in keys ==> y == x || y in keys - {x};
      k := long;
    }
  }

  lemma OneEvent(s: State, e: Event)
    ensures StateAfter(s, [e]) == After(s, e)
  {
    assert [e][..0] == [];
    assert StateAfter(s, [e][..0]) == s;
  }

  /** A key keeps its address over a crash, whatever happens next, exactly when the file held
      the key: otherwise some other key can be given the address first. */
  lemma RestartKeepsExactly(s: State, key: Key)
    requires Good(s) && key in s.mem
    ensures key in s.file <==>
            forall events: seq<Event> :: Reply(StateAfter(s, [Crash] + events), Ask(key, Fine)) == Given(s.mem[key])
  {
    hide Sound;
    if key in s.file {
      forall events: seq<Event> ensures Reply(StateAfter(s, [Crash] + events), Ask(key, Fine)) == Given(s.mem[key]) {
        RunGood(s, [Crash] + events);
      }
    } else {
      var other := FreshKey(s.file.Keys + {key});
      var a := StateAfter(s, [Crash] + []);
      assert [Crash] + [] == [Crash];
      OneEvent(s, Crash);
      assert a == State(s.file, s.file);
      var events := [Ask(other, Fine)];
      StateAfterConcat(s, [Crash], events);
      OneEvent(a, events[0]);
      var b := StateAfter(s, [Crash] + events);
      assert b == After(a, events[0]);
      if Reply(a, Ask(key, Fine)) == Given(s.mem[key]) {
        assert key !in a.mem && Reply(a, Ask(key, Fine)) == Given(LeastFree(a.mem).value);
        assert LeastFree(a.mem) == Some(s.mem[key]);
        assert other !in a.mem;
        assert b.mem == a.mem[other := s.mem[key]];
        assert other in b.mem && b.mem[other] == s.mem[key];
        assert s.mem[key] in b.mem.Values && key !in b.mem;
        assert LeastFree(b.mem).Some? ==> LeastFree(b.mem).value != s.mem[key];
        assert Reply(b, Ask(key, Fine)) != Given(s.mem[key]);
      } else {
        assert Reply(StateAfter(s, [Crash] + []), Ask(key, Fine)) != Given(s.mem[key]);
      }
    }
  }

  /** Such a run: the save of the first lease fails, and after the crash another key has it. */
  lemma UnsavedIsReused() returns (events: seq<Event>)
    ensures |events| == 3 && events == [Ask("a", WriteFails), Crash, Ask("b", Fine)]
    ensures Answers(START, events) == [Given(BASE + 2), NoAnswer, Given(BASE + 2)]
  {
    events := [Ask("a", WriteFails), Crash, Ask("b", Fine)];
    assert IsLeastFree(map[], BASE + 2);
    LeastFreeUnique(map[], BASE + 2);
    var one, two := State(map["a" := BASE + 2], map[]), START;
    assert events[..0] == [] && events[..1][..0] == [] && events[..2][..1] == events[..1];
    assert StateAfter(START, events[..1]) == one;
    assert StateAfter(START, events[..2]) == two;
    AnswerAt(START, events, 0);
    AnswerAt(START, events, 1);
    AnswerAt(START, events, 2);
  }
}
