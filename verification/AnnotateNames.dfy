/**
 The annotator's name tables: systems, state machines, states and queues are given small numbers
 in the order in which they are met.
 */
module AnnotateNames {

  // A name and the context it is used in.
  datatype Id = Id(name: string, id: nat)

  // ---------------------------------------------------------------- one dense table

  ghost predicate Has<K(!new)>(m: map<K, int>, v: int) {
    exists k :: k in m && m[k] == v
  }

  // The numbers 1 to n are each given to exactly one key.
  ghost predicate Dense<K(!new)>(m: map<K, int>, n: int) {
    && n >= 0
    && (forall k :: k in m ==> 1 <= m[k] <= n)
    && (forall k, l :: k in m && l in m && m[k] == m[l] ==> k == l)
    && (forall v :: 1 <= v <= n ==> Has(m, v))
  }

  lemma HasMore<K(!new)>(m: map<K, int>, k: K, w: int, v: int)
    requires Has(m, v) && k !in m
    ensures Has(m[k := w], v)
  {
    var l :| l in m && m[l] == v;
    assert m[k := w][l] == v;
  }

  /** A new key gets the next number. */
  lemma DenseAdd<K(!new)>(m: map<K, int>, n: int, k: K)
    requires Dense(m, n) && k !in m
    ensures Dense(m[k := n + 1], n + 1)
  {
    var m' := m[k := n + 1];
    assert m'[k] == n + 1;
    forall v | 1 <= v <= n + 1
      ensures Has(m', v)
    {
      if v <= n {
        HasMore(m, k, n + 1, v);
      }
    }
  }

  // ---------------------------------------------------------------- one table per system

  datatype Entry = Entry(sys: int, id: Id)

  // Numbers by system and name, and names by number; num counts them.
  datatype Table = Table(cache: seq<map<Id, int>>, names: seq<Entry>, num: int)

  const NoNames := Table([], [], 0)

  predicate Listed(t: Table, e: Entry, v: int) {
    1 <= e.sys <= |t.cache| && e.id in t.cache[e.sys - 1] && t.cache[e.sys - 1][e.id] == v
  }

  // From a name to its number and back.
  predicate Forth(t: Table, e: Entry) {
    1 <= e.sys <= |t.cache| && e.id in t.cache[e.sys - 1] ==>
      var v := t.cache[e.sys - 1][e.id]; 1 <= v <= |t.names| && t.names[v - 1] == e
  }

  // From a number to its name and back.
  predicate Back(t: Table, v: int) {
    1 <= v <= |t.names| ==> Listed(t, t.names[v - 1], v)
  }

  /** The two directions are inverse, and the numbers are dense. */
  ghost predicate Inverse(t: Table) {
    t.num == |t.names| && (forall e :: Forth(t, e)) && (forall v :: Back(t, v))
  }

  predicate Interned(t: Table, sys: int, id: Id) {
    1 <= sys <= |t.cache| && id in t.cache[sys - 1]
  }

  // The number of a name, now or after it is entered.
  function NumberOf(t: Table, sys: int, id: Id): int {
    if Interned(t, sys, id) then t.cache[sys - 1][id] else t.num + 1
  }

  function Enter(t: Table, sys: int, id: Id): Table {
    if !(1 <= sys <= |t.cache|) || id in t.cache[sys - 1] then t
    else Table(t.cache[sys - 1 := t.cache[sys - 1][id := t.num + 1]], t.names + [Entry(sys, id)], t.num + 1)
  }

  function AddSystem(t: Table): Table {
    t.(cache := t.cache + [map[]])
  }

  lemma AddSystemKeeps(t: Table)
    requires Inverse(t)
    ensures Inverse(AddSystem(t))
  {
    var u := AddSystem(t);
    forall e
      ensures Forth(u, e)
    {
      assert Forth(t, e);
    }
    forall v
      ensures Back(u, v)
    {
      assert Back(t, v);
    }
  }

  /** Entering a name keeps the tables inverse. */
  lemma EnterKeeps(t: Table, sys: int, id: Id)
    requires Inverse(t) && 1 <= sys <= |t.cache|
    ensures Inverse(Enter(t, sys, id))
  {
    if id !in t.cache[sys - 1] {
      var u := Enter(t, sys, id);
      forall e
        ensures Forth(u, e)
      {
        assert Forth(t, e);
      }
      forall v
        ensures Back(u, v)
      {
        assert Back(t, v);
        if v == |u.names| {
          assert u.names[v - 1] == Entry(sys, id);
        } else if 1 <= v < |u.names| {
          assert u.names[v - 1] == t.names[v - 1];
        }
      }
    }
  }

  /** A name has the number it is given from then on, and no number given before changes. */
  lemma EnterMeaning(t: Table, sys: int, id: Id)
    requires Inverse(t) && 1 <= sys <= |t.cache|
    ensures var u, v := Enter(t, sys, id), NumberOf(t, sys, id);
      && t.names <= u.names && |u.cache| == |t.cache| && t.num <= u.num
      && 1 <= v <= u.num && u.num == |u.names| && u.names[v - 1] == Entry(sys, id)
      && Interned(u, sys, id) && NumberOf(u, sys, id) == v && Enter(u, sys, id) == u
  {
    assert Forth(t, Entry(sys, id));
  }

  /** A number and its name determine each other. */
  lemma NumberMeaning(t: Table, sys: int, id: Id, v: int)
    requires Inverse(t) && 1 <= v <= t.num
    ensures t.names[v - 1] == Entry(sys, id) <==> Interned(t, sys, id) && NumberOf(t, sys, id) == v
  {
    assert Back(t, v);
    assert Forth(t, Entry(sys, id));
  }

  // ---------------------------------------------------------------- states

  // A number for each machine name, and for each of these the numbers of its states.
  datatype States = States(machines: map<string, int>, numSmt: int, cache: seq<map<string, int>>, num: seq<int>)

  const NoStates := States(map[], 0, [], [])

  ghost predicate StatesDense(st: States) {
    && Dense(st.machines, st.numSmt)
    && |st.cache| == st.numSmt && |st.num| == st.numSmt
    && (forall i :: 0 <= i < |st.cache| ==> Dense(st.cache[i], st.num[i]))
  }

  function MachineNumber(st: States, machine: string): int {
    if machine in st.machines then st.machines[machine] else st.numSmt + 1
  }

  function AddMachine(st: States, machine: string): States {
    if machine in st.machines then st
    else States(st.machines[machine := st.numSmt + 1], st.numSmt + 1, st.cache + [map[]], st.num + [0])
  }

  function AddState(st: States, i: int, state: string): States {
    if !(1 <= i <= |st.cache| && i <= |st.num|) || state in st.cache[i - 1] then st
    else
      var n := st.num[i - 1] + 1;
      st.(cache := st.cache[i - 1 := st.cache[i - 1][state := n]], num := st.num[i - 1 := n])
  }

  // The tables once a state has been met.
  function WithState(st: States, machine: string, state: string): States {
    AddState(AddMachine(st, machine), MachineNumber(st, machine), state)
  }

  predicate HasState(st: States, machine: string, state: string, n: int) {
    && machine in st.machines && 1 <= st.machines[machine] <= |st.cache|
    && state in st.cache[st.machines[machine] - 1] && st.cache[st.machines[machine] - 1][state] == n
  }

  lemma AddMachineKeeps(st: States, machine: string)
    requires StatesDense(st)
    ensures StatesDense(AddMachine(st, machine))
    ensures machine in AddMachine(st, machine).machines
    ensures AddMachine(st, machine).machines[machine] == MachineNumber(st, machine)
    ensures 1 <= MachineNumber(st, machine) <= |AddMachine(st, machine).cache|
  {
    if machine !in st.machines {
      DenseAdd(st.machines, st.numSmt, machine);
    }
  }

  /** Every machine's states are numbered densely. */
  lemma AddStateKeeps(st: States, i: int, state: string)
    requires StatesDense(st) && 1 <= i <= |st.cache|
    ensures StatesDense(AddState(st, i, state))
  {
    if state !in st.cache[i - 1] {
      DenseAdd(st.cache[i - 1], st.num[i - 1], state);
    }
  }

  function StateNumber(st: States, machine: string, state: string): int {
    var w, i := AddMachine(st, machine), MachineNumber(st, machine);
    if 1 <= i <= |w.cache| && state in w.cache[i - 1] then w.cache[i - 1][state]
    else if 1 <= i <= |w.num| then w.num[i - 1] + 1 else 0
  }

  /** Meeting a state keeps all numbers dense and gives it its number. */
  lemma WithStateKeeps(st: States, machine: string, state: string)
    requires StatesDense(st)
    ensures StatesDense(WithState(st, machine, state))
    ensures HasState(WithState(st, machine, state), machine, state, StateNumber(st, machine, state))
  {
    AddMachineKeeps(st, machine);
    AddStateKeeps(AddMachine(st, machine), MachineNumber(st, machine), state);
  }
}
