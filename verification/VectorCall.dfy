// Binding vectorcall arguments to parameter names.

module VectorCall {
  import opened Common

  type Name = string

  /** The names tuple: its size may fail to be read, and so may each of its items. */
  datatype KeywordNames = SizeError | Names(keys: seq<Option<Name>>)

  datatype BindError =
    | InvalidLength
    | TupleError
    | TooMany
    | Unexpected(key: Name)
    | MultipleValues(key: Name)

  function Count(knames: Option<KeywordNames>): nat {
    if knames.Some? && knames.value.Names? then |knames.value.keys| else 0
  }

  /** The parameter a key names, or the number of parameters. */
  function Slot(names: seq<Name>, key: Name): (j: nat)
    ensures j <= |names|
    ensures j < |names| ==> names[j] == key
    ensures forall k :: 0 <= k < j ==> names[k] != key
  {
    if names == [] then 0
    else if names[0] == key then 0
    else
      var rest := Slot(names[1..], key);
      assert forall k :: 0 < k < rest + 1 ==> names[k] == names[1..][k - 1];
      rest + 1
  }

  /** Keyword `i` is for parameter `j`. */
  predicate IsFor(keys: seq<Option<Name>>, names: seq<Name>, i: nat, j: nat) {
    i < |keys| && keys[i].Some? && Slot(names, keys[i].value) == j
  }

  /** What the positional arguments put into parameter `j`. */
  function Positional(args: seq<Option<Object>>, j: nat): Option<Object> {
    if j < |args| then args[j] else None
  }

  /** Parameter `j` already has a value when keyword `i` comes. */
  ghost predicate Filled(
    args: seq<Option<Object>>, keys: seq<Option<Name>>, values: seq<Option<Object>>,
    names: seq<Name>, i: nat, j: nat)
    requires |values| == |keys|
  {
    || Positional(args, j).Some?
    || exists e :: 0 <= e < i && IsFor(keys, names, e, j) && values[e].Some?
  }

  /** What is wrong with keyword `i`, given the ones before it. */
  ghost function Fault(
    args: seq<Option<Object>>, keys: seq<Option<Name>>, values: seq<Option<Object>>,
    names: seq<Name>, i: nat): Option<BindError>
    requires |values| == |keys| && i < |keys|
  {
    if keys[i].None? then Some(TupleError)
    else
      var key := keys[i].value;
      var j := Slot(names, key);
      if j == |names| then Some(Unexpected(key))
      else if Filled(args, keys, values, names, i, j) then Some(MultipleValues(key))
      else None
  }

  /** `err` is the fault of the first faulty keyword, none if there is none. */
  ghost predicate IsFirstFault(
    args: seq<Option<Object>>, keys: seq<Option<Name>>, values: seq<Option<Object>>,
    names: seq<Name>, err: Option<BindError>)
    requires |values| == |keys|
  {
    if err.None? then
      forall i :: 0 <= i < |keys| ==> Fault(args, keys, values, names, i) == None
    else
      exists i ::
        && 0 <= i < |keys|
        && Fault(args, keys, values, names, i) == err
        && forall e :: 0 <= e < i ==> Fault(args, keys, values, names, e) == None
  }

  /** What parameter `j` holds once the keywords before `upTo` are bound. */
  ghost predicate Holds(
    args: seq<Option<Object>>, keys: seq<Option<Name>>, values: seq<Option<Object>>,
    names: seq<Name>, upTo: nat, j: nat, slot: Option<Object>)
    requires |values| == |keys|
  {
    && (Positional(args, j).Some? ==> slot == Positional(args, j))
    && (forall i :: 0 <= i < upTo && IsFor(keys, names, i, j) && values[i].Some? ==> slot == values[i])
    && (slot.Some? ==> Filled(args, keys, values, names, upTo, j))
  }

  /** Merges positional and keyword values into `out`. `stack` holds the `nargs` positional
      arguments followed by the keyword values. The first faulty keyword is reported; with
      none, every parameter holds its positional argument, else the value of its keyword,
      else nothing. Positional arguments beyond the parameters are ignored. */
  method MergeVectorCallArgs(
      stack: seq<Option<Object>>, nargs: nat, knames: Option<KeywordNames>,
      names: seq<Name>, out: array<Option<Object>>)
    returns (err: Option<BindError>)
    requires out.Length == |names| && nargs + Count(knames) <= |stack|
    modifies out
    ensures knames == Some(SizeError) ==> err == Some(TupleError)
    ensures knames.None? ==> err == None
    ensures knames.Some? && knames.value.Names? ==>
              var keys := knames.value.keys;
              IsFirstFault(stack[..nargs], keys, stack[nargs..nargs + |keys|], names, err)
    ensures err.None? ==>
              var keys := if knames.Some? && knames.value.Names? then knames.value.keys else [];
              forall j :: 0 <= j < |names| ==>
                Holds(stack[..nargs], keys, stack[nargs..nargs + |keys|], names, |keys|, j, out[j])
  {
    ghost var args := stack[..nargs];
    var n := if nargs < out.Length then nargs else out.Length;
    for j := 0 to out.Length
      invariant forall k :: 0 <= k < j ==> out[k] == Positional(args, k)
    {
      out[j] := if j < n then stack[j] else None;
    }
    if knames.None? {
      return None;
    }
    if knames.value.SizeError? {
      return Some(TupleError);
    }
    var keys := knames.value.keys;
    var values := stack[nargs..nargs + |keys|];
    for i := 0 to |keys|
      invariant forall e :: 0 <= e < i ==> Fault(args, keys, values, names, e) == None
      invariant forall j :: 0 <= j < |names| ==> Holds(args, keys, values, names, i, j, out[j])
    {
      if keys[i].None? {
        assert Fault(args, keys, values, names, i) == Some(TupleError);
        return Some(TupleError);
      }
      err := BindOne(args, keys, values, names, i, out);
      if err.Some? {
        return;
      }
    }
    return None;
  }

  /** The inner loop: finds the parameter keyword `i` names and stores the value. */
  method BindOne(
      ghost args: seq<Option<Object>>, keys: seq<Option<Name>>, values: seq<Option<Object>>,
      names: seq<Name>, i: nat, out: array<Option<Object>>)
    returns (err: Option<BindError>)
    requires |values| == |keys| && i < |keys| && keys[i].Some? && out.Length == |names|
    requires forall j :: 0 <= j < |names| ==> Holds(args, keys, values, names, i, j, out[j])
    modifies out
    ensures err == Fault(args, keys, values, names, i)
    ensures err.None? ==>
              forall j :: 0 <= j < |names| ==> Holds(args, keys, values, names, i + 1, j, out[j])
  {
    var key := keys[i].value;
    for j := 0 to |names|
      invariant forall k :: 0 <= k < j ==> names[k] != key
      invariant out[..] == old(out[..])
    {
      if names[j] == key {
        assert Slot(names, key) == j;
        if out[j] != None {
          return Some(MultipleValues(key));
        }
        assert !Filled(args, keys, values, names, i, j);
        out[j] := values[i];
        Rebound(args, keys, values, names, i, j, old(out[..]), out[..]);
        return None;
      }
    }
    assert Slot(names, key) == |names|;
    return Some(Unexpected(key));
  }

  lemma Rebound(
    args: seq<Option<Object>>, keys: seq<Option<Name>>, values: seq<Option<Object>>,
    names: seq<Name>, i: nat, j: nat, before: seq<Option<Object>>, after: seq<Option<Object>>)
    requires |values| == |keys| && i < |keys| && |before| == |names| && j < |names|
    requires IsFor(keys, names, i, j) && after == before[j := values[i]]
    requires !Filled(args, keys, values, names, i, j)
    requires forall k :: 0 <= k < |names| ==> Holds(args, keys, values, names, i, k, before[k])
    ensures forall k :: 0 <= k < |names| ==> Holds(args, keys, values, names, i + 1, k, after[k])
  {
    forall k | 0 <= k < |names| ensures Holds(args, keys, values, names, i + 1, k, after[k]) {
      assert Holds(args, keys, values, names, i, k, before[k]);
      assert IsFor(keys, names, i, k) <==> k == j;
    }
  }

  // ---- the usual call ----

  /** With distinct parameter names and no null values, merging succeeds exactly when all
      keywords are known, no two are equal, and none names a positional argument. */
  lemma MergeSucceedsExactly(
    args: seq<Option<Object>>, keys: seq<Option<Name>>, values: seq<Option<Object>>, names: seq<Name>)
    requires |values| == |keys|
    requires forall i :: 0 <= i < |keys| ==> keys[i].Some? && values[i].Some?
    requires forall i :: 0 <= i < |args| ==> args[i].Some?
    ensures (forall i :: 0 <= i < |keys| ==> Fault(args, keys, values, names, i) == None)
       <==> (&& (forall i :: 0 <= i < |keys| ==> |args| <= Slot(names, keys[i].value) < |names|)
             && (forall e, i :: 0 <= e < i < |keys| ==> keys[e] != keys[i]))
  {
    if forall i :: 0 <= i < |keys| ==> Fault(args, keys, values, names, i) == None {
      forall i | 0 <= i < |keys| ensures |args| <= Slot(names, keys[i].value) < |names| {
        assert Fault(args, keys, values, names, i) == None;
      }
      forall e, i | 0 <= e < i < |keys| ensures keys[e] != keys[i] {
        assert Fault(args, keys, values, names, i) == None;
        if keys[e] == keys[i] {
          assert IsFor(keys, names, e, Slot(names, keys[i].value));
        }
      }
    }
    if && (forall i :: 0 <= i < |keys| ==> |args| <= Slot(names, keys[i].value) < |names|)
       && (forall e, i :: 0 <= e < i < |keys| ==> keys[e] != keys[i]) {
      forall i | 0 <= i < |keys| ensures Fault(args, keys, values, names, i) == None {
        NotFilled(args, keys, values, names, i);
      }
    }
  }

  lemma NotFilled(
    args: seq<Option<Object>>, keys: seq<Option<Name>>, values: seq<Option<Object>>,
    names: seq<Name>, i: nat)
    requires |values| == |keys| && i < |keys| && keys[i].Some?
    requires |args| <= Slot(names, keys[i].value) < |names|
    requires forall e :: 0 <= e < i ==> keys[e] != keys[i]
    ensures !Filled(args, keys, values, names, i, Slot(names, keys[i].value))
  {
    var j := Slot(names, keys[i].value);
    forall e | 0 <= e < i ensures !IsFor(keys, names, e, j) {
      assert names[j] == keys[i].value;
    }
  }

  // ---- keywords only ----

  /** The last keyword before `upTo` that names parameter `j`. */
  function LastFor(keys: seq<Option<Name>>, names: seq<Name>, upTo: nat, j: nat): (r: Option<nat>)
    requires upTo <= |keys|
    ensures r.Some? ==> r.value < upTo && IsFor(keys, names, r.value, j)
    ensures forall i :: (if r.Some? then r.value + 1 else 0) <= i < upTo ==> !IsFor(keys, names, i, j)
  {
    if upTo == 0 then None
    else if IsFor(keys, names, upTo - 1, j) then Some(upTo - 1)
    else LastFor(keys, names, upTo - 1, j)
  }

  predicate AllKnown(knames: KeywordNames, names: seq<Name>) {
    && knames.Names?
    && |knames.keys| <= |names|
    && forall i :: 0 <= i < |knames.keys| ==>
         knames.keys[i].Some? && Slot(names, knames.keys[i].value) < |names|
  }

  /** Stores keyword values into the variables of the names they carry, taking a new
      reference for each. A failure of any kind writes nothing and takes no reference. */
  method ParseVectorCallKwargs(
      knames: Option<KeywordNames>, values: seq<Object>, names: seq<Name>, vars: array<Option<Object>>)
    returns (err: Option<BindError>, increfs: seq<Object>)
    requires Count(knames) <= |values|
    modifies vars
    ensures err.Some? ==> vars[..] == old(vars[..]) && increfs == []
    ensures err.None? <==> vars.Length == |names| && (knames.Some? ==> AllKnown(knames.value, names))
    ensures err.None? ==>
              var keys := if knames.Some? && knames.value.Names? then knames.value.keys else [];
              && (forall j :: 0 <= j < |names| ==>
                    vars[j] == match LastFor(keys, names, |keys|, j)
                               case Some(i) => Some(values[i])
                               case None => old(vars[j]))
              && increfs == Stored(keys, names, values, |names|)
              && forall o: Object :: multiset(increfs)[o] == |Given(keys, names, values, |names|, o)|
  {
    increfs := [];
    if |names| != vars.Length {
      return Some(InvalidLength), [];
    }
    var slots := new Option<Object>[|names|](_ => None);
    var keys: seq<Option<Name>> := [];
    if knames.Some? {
      if knames.value.SizeError? {
        return Some(TupleError), [];
      }
      keys := knames.value.keys;
      if |keys| > |names| {
        return Some(TooMany), [];
      }
      for i := 0 to |keys|
        invariant vars[..] == old(vars[..])
        invariant forall e :: 0 <= e < i ==> keys[e].Some? && Slot(names, keys[e].value) < |names|
        invariant forall j :: 0 <= j < |names| ==> slots[j] == Chosen(keys, names, values, i, j)
      {
        if keys[i].None? {
          return Some(TupleError), [];
        }
        var found := StoreOne(keys, names, values, i, slots);
        if !found {
          return Some(Unexpected(keys[i].value)), [];
        }
      }
    }
    increfs := WriteBack(keys, names, values, slots, vars);
    forall o: Object ensures multiset(increfs)[o] == |Given(keys, names, values, |names|, o)| {
      OneReferenceEach(keys, names, values, |names|, o);
    }
    return None, increfs;
  }

  /** The final loop: stores what was found, with a new reference for each. */
  method WriteBack(
      ghost keys: seq<Option<Name>>, ghost names: seq<Name>, ghost values: seq<Object>,
      slots: array<Option<Object>>, vars: array<Option<Object>>)
    returns (increfs: seq<Object>)
    requires |keys| <= |values| && slots != vars && slots.Length == vars.Length == |names|
    requires forall j :: 0 <= j < |names| ==> slots[j] == Chosen(keys, names, values, |keys|, j)
    modifies vars
    ensures forall j :: 0 <= j < |names| ==>
              vars[j] == if slots[j].Some? then slots[j] else old(vars[j])
    ensures increfs == Stored(keys, names, values, |names|)
  {
    increfs := [];
    for j := 0 to slots.Length
      invariant forall k :: 0 <= k < j ==> vars[k] == if slots[k].Some? then slots[k] else old(vars[k])
      invariant forall k :: j <= k < |names| ==> vars[k] == old(vars[k])
      invariant increfs == Stored(keys, names, values, j)
    {
      if slots[j].Some? {
        vars[j] := slots[j];
        increfs := increfs + [slots[j].value];
      }
    }
  }

  function Chosen(keys: seq<Option<Name>>, names: seq<Name>, values: seq<Object>, upTo: nat, j: nat): Option<Object>
    requires upTo <= |keys| <= |values|
  {
    match LastFor(keys, names, upTo, j) case Some(i) => Some(values[i]) case None => None
  }

  /** The objects stored in the first `n` variables. */
  function Stored(keys: seq<Option<Name>>, names: seq<Name>, values: seq<Object>, n: nat): seq<Object>
    requires |keys| <= |values|
  {
    if n == 0 then []
    else
      var last := Chosen(keys, names, values, |keys|, n - 1);
      Stored(keys, names, values, n - 1) + if last.Some? then [last.value] else []
  }

  /** The last keyword that names parameter `j` gives it `o`. */
  predicate Gives(keys: seq<Option<Name>>, names: seq<Name>, values: seq<Object>, j: nat, o: Object)
    requires |keys| <= |values|
  {
    var last := LastFor(keys, names, |keys|, j);
    last.Some? && values[last.value] == o
  }

  /** The parameters below `n` to which a keyword gives `o`. */
  function Given(keys: seq<Option<Name>>, names: seq<Name>, values: seq<Object>, n: nat, o: Object): set<nat>
    requires |keys| <= |values|
  {
    set j: nat | j < n && Gives(keys, names, values, j, o)
  }

  /** Every object is referenced once more for each variable that now holds it because of a
      keyword, and no other object is. */
  lemma {:induction false} OneReferenceEach(
    keys: seq<Option<Name>>, names: seq<Name>, values: seq<Object>, n: nat, o: Object)
    requires |keys| <= |values|
    ensures multiset(Stored(keys, names, values, n))[o] == |Given(keys, names, values, n, o)|
  {
    if n > 0 {
      OneReferenceEach(keys, names, values, n - 1, o);
      OneMoreGiven(keys, names, values, n, o);
      CountOneMore(Stored(keys, names, values, n - 1), Chosen(keys, names, values, |keys|, n - 1), o);
    }
  }

  lemma CountOneMore(s: seq<Object>, last: Option<Object>, o: Object)
    ensures var more: seq<Object> := if last.Some? then [last.value] else [];
            multiset(s + more)[o] == (if last == Some(o) then multiset(s)[o] + 1 else multiset(s)[o])
  {
  }

  lemma OneMoreGiven(keys: seq<Option<Name>>, names: seq<Name>, values: seq<Object>, n: nat, o: Object)
    requires |keys| <= |values| && n > 0
    ensures |Given(keys, names, values, n, o)|
         == |Given(keys, names, values, n - 1, o)| + if Gives(keys, names, values, n - 1, o) then 1 else 0
  {
    var all, before := Given(keys, names, values, n, o), Given(keys, names, values, n - 1, o);
    assert all == if Gives(keys, names, values, n - 1, o) then before + {n - 1} else before;
  }

  method StoreOne(
      keys: seq<Option<Name>>, names: seq<Name>, values: seq<Object>, i: nat, slots: array<Option<Object>>)
    returns (found: bool)
    requires i < |keys| <= |values| && keys[i].Some? && slots.Length == |names|
    requires forall j :: 0 <= j < |names| ==> slots[j] == Chosen(keys, names, values, i, j)
    modifies slots
    ensures found <==> Slot(names, keys[i].value) < |names|
    ensures found ==> forall j :: 0 <= j < |names| ==> slots[j] == Chosen(keys, names, values, i + 1, j)
  {
    for j := 0 to |names|
      invariant forall k :: 0 <= k < j ==> names[k] != keys[i].value
      invariant slots[..] == old(slots[..])
    {
      if names[j] == keys[i].value {
        assert Slot(names, keys[i].value) == j;
        slots[j] := Some(values[i]);
        return true;
      }
    }
    assert Slot(names, keys[i].value) == |names|;
    return false;
  }
}
