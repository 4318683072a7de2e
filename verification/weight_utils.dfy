/**
 * The in-memory logic of vllm/model_executor/weight_utils.py: finding the tensors of a
 * checkpoint that share storage and dropping all but the first name of each before a
 * safetensors conversion, choosing which weight files to load from the load format and the
 * files present, validating a KV-cache scaling-factor map, and the size check of the
 * default weight loader.  Downloads, file locks, (de)serialisation and the file system are
 * not part of this model: the file listings and the parsed scale map are inputs.
 */
module WeightUtils {
  import opened Wrappers

  datatype WeightError =
    | KeyError             // `dict.pop` of a missing name
    | UnknownLoadFormat    // ValueError for a load format outside the four known ones
    | NoWeightFiles        // RuntimeError: no model weights found
    | SizeMismatch         // the default loader's `assert param.size() == loaded_weight.size()`

  predicate NoDup<T(==)>(s: seq<T>)
  {
    forall i, j :: 0 <= i < j < |s| ==> s[i] != s[j]
  }

  // ---------------------------------------------------------------- _shared_pointers

  /** A checkpoint entry: a parameter name and the address of the storage it views. */
  datatype Tensor = Tensor(name: string, dataPtr: int)

  /** A state dict names each tensor once. */
  predicate DistinctNames(ts: seq<Tensor>)
  {
    forall i, j :: 0 <= i < j < |ts| ==> ts[i].name != ts[j].name
  }

  /** The state dict as a map from name to data pointer. */
  function ToMap(ts: seq<Tensor>): (m: map<string, int>)
    ensures |m| <= |ts|
  {
    if ts == [] then map[]
    else
      var n := |ts| - 1;
      ToMap(ts[..n])[ts[n].name := ts[n].dataPtr]
  }

  /** A name is a key of the map exactly when some tensor has it. */
  lemma {:induction false} ToMapKeys(ts: seq<Tensor>, name: string)
    ensures name in ToMap(ts) <==> exists i :: 0 <= i < |ts| && ts[i].name == name
    decreases |ts|
  {
    if ts != [] {
      var n := |ts| - 1;
      ToMapKeys(ts[..n], name);
      if name in ToMap(ts[..n]) {
        var i :| 0 <= i < n && ts[..n][i].name == name;
        assert ts[i] == ts[..n][i];
      }
      if exists i :: 0 <= i < |ts| && ts[i].name == name {
        var i :| 0 <= i < |ts| && ts[i].name == name;
        if i < n {
          assert ts[..n][i] == ts[i];
        }
      }
    }
  }

  /** With distinct names the map gives each tensor its own pointer. */
  lemma {:induction false} ToMapAt(ts: seq<Tensor>, i: nat)
    requires DistinctNames(ts) && i < |ts|
    ensures ts[i].name in ToMap(ts) && ToMap(ts)[ts[i].name] == ts[i].dataPtr
    decreases |ts|
  {
    var n := |ts| - 1;
    if i < n {
      assert DistinctNames(ts[..n]);
      ToMapAt(ts[..n], i);
      assert ts[..n][i] == ts[i];
    }
  }

  /** The names whose tensor has pointer p, in dict order: the list `ptrs[p]` ends up holding. */
  function NamesAt(ts: seq<Tensor>, p: int): (names: seq<string>)
    ensures |names| <= |ts|
  {
    if ts == [] then []
    else
      var n := |ts| - 1;
      NamesAt(ts[..n], p) + (if ts[n].dataPtr == p then [ts[n].name] else [])
  }

  /** A name is listed under p exactly when its tensor has pointer p. */
  lemma {:induction false} NamesAtIff(ts: seq<Tensor>, p: int, name: string)
    requires DistinctNames(ts)
    ensures name in NamesAt(ts, p) <==> name in ToMap(ts) && ToMap(ts)[name] == p
    decreases |ts|
  {
    if ts != [] {
      var n := |ts| - 1;
      assert DistinctNames(ts[..n]);
      NamesAtIff(ts[..n], p, name);
      ToMapKeys(ts[..n], name);
    }
  }

  /** No name is listed twice under a pointer. */
  lemma {:induction false} NamesAtNoDup(ts: seq<Tensor>, p: int)
    requires DistinctNames(ts)
    ensures NoDup(NamesAt(ts, p))
    decreases |ts|
  {
    if ts != [] {
      var n := |ts| - 1;
      var init := ts[..n];
      assert DistinctNames(init);
      NamesAtNoDup(init, p);
      if ts[n].dataPtr == p {
        NamesAtIff(init, p, ts[n].name);
        ToMapKeys(init, ts[n].name);
        var a := NamesAt(init, p);
        assert NamesAt(ts, p) == a + [ts[n].name];
        assert ts[n].name !in a;
      }
    }
  }

  /** The pointers in the order the dict of lists first sees them. */
  function Ptrs(ts: seq<Tensor>): (ps: seq<int>)
    ensures |ps| <= |ts|
  {
    if ts == [] then []
    else
      var n := |ts| - 1;
      var init := Ptrs(ts[..n]);
      init + (if ts[n].dataPtr in init then [] else [ts[n].dataPtr])
  }

  /** A pointer is seen exactly when some tensor has it, and it is seen once. */
  lemma {:induction false} PtrsFacts(ts: seq<Tensor>)
    ensures NoDup(Ptrs(ts))
    ensures forall p :: p in Ptrs(ts) <==> NamesAt(ts, p) != []
    decreases |ts|
  {
    if ts != [] {
      var n := |ts| - 1;
      PtrsFacts(ts[..n]);
    }
  }

  /** The groups of two or more names that share a pointer, for the pointers `ps` in order. */
  function GroupsOf(ts: seq<Tensor>, ps: seq<int>): (groups: seq<seq<string>>)
    ensures |groups| <= |ps|
    ensures forall g :: 0 <= g < |groups| ==> |groups[g]| >= 2
  {
    if ps == [] then []
    else
      var n := |ps| - 1;
      var names := NamesAt(ts, ps[n]);
      GroupsOf(ts, ps[..n]) + (if |names| > 1 then [names] else [])
  }

  /** What _shared_pointers returns: for each pointer in first-seen order, its names if there are several. */
  function SharedGroups(ts: seq<Tensor>): (groups: seq<seq<string>>)
    ensures |groups| <= |ts|
    ensures forall g :: g in groups ==> |g| >= 2
  {
    GroupsOf(ts, Ptrs(ts))
  }

  /** A group is the full list of names of one of the pointers, and every shared pointer has its group. */
  lemma {:induction false} GroupsOfIff(ts: seq<Tensor>, ps: seq<int>, g: seq<string>)
    ensures g in GroupsOf(ts, ps) <==> |g| >= 2 && exists p :: p in ps && g == NamesAt(ts, p)
    decreases |ps|
  {
    if ps != [] {
      var n := |ps| - 1;
      GroupsOfIff(ts, ps[..n], g);
      if exists p :: p in ps && g == NamesAt(ts, p) {
        var p :| p in ps && g == NamesAt(ts, p);
        if p != ps[n] {
          assert p in ps[..n];
        }
      }
    }
  }

  /**
   * _shared_pointers: fill a dict of lists keyed by data pointer, then collect the lists
   * with more than one name, in the dict's order.
   */
  method SharedPointers(tensors: seq<Tensor>) returns (failing: seq<seq<string>>)
    ensures failing == SharedGroups(tensors)
  {
    var order, ptrs := PointerLists(tensors);
    failing := [];
    for j := 0 to |order|
      invariant failing == GroupsOf(tensors, order[..j])
    {
      assert order[..j + 1][..j] == order[..j];
      var names := ptrs[order[j]];
      if |names| > 1 {
        failing := failing + [names];
      }
    }
    assert order[..|order|] == order;
  }

  /**
   * The first loop of _shared_pointers: the dict of lists, as a map plus the order its keys
   * were inserted in; each pointer's list holds its tensors' names in dict order.
   */
  method PointerLists(tensors: seq<Tensor>) returns (order: seq<int>, ptrs: map<int, seq<string>>)
    ensures order == Ptrs(tensors)
    ensures forall p :: p in ptrs <==> p in order
    ensures forall j :: 0 <= j < |order| ==> order[j] in ptrs
    ensures forall p :: p in ptrs ==> ptrs[p] == NamesAt(tensors, p)
  {
    order := [];
    ptrs := map[];
    for i := 0 to |tensors|
      invariant order == Ptrs(tensors[..i])
      invariant forall p :: p in ptrs <==> p in order
      invariant forall p :: p in ptrs ==> ptrs[p] == NamesAt(tensors[..i], p)
    {
      var t := tensors[i];
      PrefixStep(tensors, i);
      PtrsFacts(tensors[..i]);
      if t.dataPtr !in ptrs {
        order := order + [t.dataPtr];
        ptrs := ptrs[t.dataPtr := []];
      }
      ptrs := ptrs[t.dataPtr := ptrs[t.dataPtr] + [t.name]];
    }
    assert tensors[..|tensors|] == tensors;
  }

  /** One more tensor of the dict: its pointer is seen if new, and its name joins its pointer's list. */
  lemma PrefixStep(ts: seq<Tensor>, i: nat)
    requires i < |ts|
    ensures Ptrs(ts[..i + 1]) == Ptrs(ts[..i]) + (if ts[i].dataPtr in Ptrs(ts[..i]) then [] else [ts[i].dataPtr])
    ensures forall p :: NamesAt(ts[..i + 1], p) == NamesAt(ts[..i], p) + (if ts[i].dataPtr == p then [ts[i].name] else [])
  {
    assert ts[..i + 1][..i] == ts[..i];
  }

  /** Every name of a shared group really shares its pointer with the group's other names. */
  lemma SharedGroupsShare(ts: seq<Tensor>, g: seq<string>)
    requires DistinctNames(ts) && g in SharedGroups(ts)
    ensures |g| >= 2 && NoDup(g)
    ensures forall a, b :: a in g && b in g ==> a in ToMap(ts) && b in ToMap(ts) && ToMap(ts)[a] == ToMap(ts)[b]
  {
    GroupsOfIff(ts, Ptrs(ts), g);
    var p :| p in Ptrs(ts) && g == NamesAt(ts, p);
    NamesAtNoDup(ts, p);
    forall a | a in g
      ensures a in ToMap(ts) && ToMap(ts)[a] == p
    {
      NamesAtIff(ts, p, a);
    }
  }

  /** Two tensors with one pointer always end up in the same reported group. */
  lemma SharedTensorsReported(ts: seq<Tensor>, i: nat, j: nat)
    requires DistinctNames(ts) && i < |ts| && j < |ts| && i != j && ts[i].dataPtr == ts[j].dataPtr
    ensures exists g :: g in SharedGroups(ts) && ts[i].name in g && ts[j].name in g
  {
    var p := ts[i].dataPtr;
    var names := NamesAt(ts, p);
    ToMapAt(ts, i);
    ToMapAt(ts, j);
    NamesAtIff(ts, p, ts[i].name);
    NamesAtIff(ts, p, ts[j].name);
    assert ts[i].name != ts[j].name;
    var a :| 0 <= a < |names| && names[a] == ts[i].name;
    var b :| 0 <= b < |names| && names[b] == ts[j].name;
    assert |names| >= 2;
    PtrsFacts(ts);
    GroupsOfIff(ts, Ptrs(ts), names);
  }

  // ---------------------------------------------------------------- convert_bin_to_safetensor_file

  /** `dict.pop(name)`: a KeyError when the name is missing. */
  function Pop(loaded: map<string, int>, name: string): (r: Result<map<string, int>, WeightError>)
    ensures r.Ok? <==> name in loaded
    ensures r.Ok? ==> r.value == loaded - {name}
  {
    if name in loaded then Ok(loaded - {name}) else Err(KeyError)
  }

  /** Popping the names in order, stopping at the first KeyError. */
  function PopAll(loaded: map<string, int>, names: seq<string>): (r: Result<map<string, int>, WeightError>)
    ensures r.Err? ==> r.error == KeyError
  {
    if names == [] then Ok(loaded)
    else
      var n := |names| - 1;
      var prefix := PopAll(loaded, names[..n]);
      if prefix.Err? then prefix else Pop(prefix.value, names[n])
  }

  /** The names every group but the first of each: what the conversion pops. */
  function Tails(shared: seq<seq<string>>): (names: seq<string>)
  {
    if shared == [] then []
    else
      var n := |shared| - 1;
      Tails(shared[..n]) + (if shared[n] == [] then [] else shared[n][1..])
  }

  /** Once a pop fails, later pops do not matter. */
  lemma {:induction false} PopAllErrSticks(loaded: map<string, int>, a: seq<string>, b: seq<string>)
    requires PopAll(loaded, a).Err?
    ensures PopAll(loaded, a + b) == Err(KeyError)
    decreases |b|
  {
    if b != [] {
      var n := |b| - 1;
      PopAllErrSticks(loaded, a, b[..n]);
      assert (a + b)[..|a + b| - 1] == a + b[..n];
    } else {
      assert a + b == a;
    }
  }

  /** The names popped for the first groups come before those popped for the later ones. */
  lemma {:induction false} TailsPrefix(shared: seq<seq<string>>, g: nat)
    requires g <= |shared|
    ensures Tails(shared[..g]) <= Tails(shared)
    decreases |shared|
  {
    if g < |shared| {
      var n := |shared| - 1;
      assert shared[..n][..g] == shared[..g];
      TailsPrefix(shared[..n], g);
    } else {
      assert shared[..g] == shared;
    }
  }

  /**
   * The deduplication step of convert_bin_to_safetensor_file: for each shared group, pop
   * every name after the first from the loaded state dict.
   */
  method DropSharedNames(loaded: map<string, int>, shared: seq<seq<string>>)
    returns (r: Result<map<string, int>, WeightError>)
    ensures r == PopAll(loaded, Tails(shared))
  {
    var cur := loaded;
    for g := 0 to |shared|
      invariant PopAll(loaded, Tails(shared[..g])) == Ok(cur)
    {
      var sharedWeights := shared[g];
      var rest := if sharedWeights == [] then [] else sharedWeights[1..];
      assert shared[..g + 1][..g] == shared[..g];
      assert Tails(shared[..g + 1]) == Tails(shared[..g]) + rest;
      assert Tails(shared[..g]) + rest[..0] == Tails(shared[..g]);
      for j := 0 to |rest|
        invariant PopAll(loaded, Tails(shared[..g]) + rest[..j]) == Ok(cur)
      {
        var done := Tails(shared[..g]) + rest[..j];
        assert (done + [rest[j]])[..|done|] == done;
        assert Tails(shared[..g]) + rest[..j + 1] == done + [rest[j]];
        if rest[j] !in cur {
          TailsPrefix(shared, g + 1);
          var later := Tails(shared)[|done| + 1..];
          assert Tails(shared) == (done + [rest[j]]) + later;
          PopAllErrSticks(loaded, done + [rest[j]], later);
          return Err(KeyError);
        }
        cur := cur - {rest[j]};
      }
      assert rest[..|rest|] == rest;
    }
    assert shared[..|shared|] == shared;
    r := Ok(cur);
  }

  /** Popping distinct names that are all present removes exactly them. */
  lemma {:induction false} PopAllDistinct(loaded: map<string, int>, names: seq<string>)
    requires NoDup(names) && forall k :: 0 <= k < |names| ==> names[k] in loaded
    ensures PopAll(loaded, names).Ok?
    ensures PopAll(loaded, names).value == loaded - set k | 0 <= k < |names| :: names[k]
    decreases |names|
  {
    if names != [] {
      var n := |names| - 1;
      PopAllDistinct(loaded, names[..n]);
      var before := set k | 0 <= k < n :: names[..n][k];
      assert names[n] !in before;
      assert (set k | 0 <= k < |names| :: names[k]) == before + {names[n]};
    }
  }

  /** A name is popped exactly when it is in a group's tail. */
  lemma {:induction false} TailsIff(shared: seq<seq<string>>, name: string)
    ensures name in Tails(shared) <==> exists g :: 0 <= g < |shared| && shared[g] != [] && name in shared[g][1..]
    decreases |shared|
  {
    if shared != [] {
      var n := |shared| - 1;
      TailsIff(shared[..n], name);
      if exists g :: 0 <= g < |shared| && shared[g] != [] && name in shared[g][1..] {
        var g :| 0 <= g < |shared| && shared[g] != [] && name in shared[g][1..];
        if g < n {
          assert shared[..n][g] == shared[g];
        }
      }
    }
  }

  /** The popped names of the shared groups: each name that is not the first of its pointer, once. */
  lemma {:induction false} SharedTailsDistinct(ts: seq<Tensor>, ps: seq<int>)
    requires DistinctNames(ts) && NoDup(ps)
    ensures NoDup(Tails(GroupsOf(ts, ps)))
    ensures forall name :: name in Tails(GroupsOf(ts, ps)) ==> name in ToMap(ts) && ToMap(ts)[name] in ps
    decreases |ps|
  {
    if ps != [] {
      var n := |ps| - 1;
      assert NoDup(ps[..n]);
      SharedTailsDistinct(ts, ps[..n]);
      var a := Tails(GroupsOf(ts, ps[..n]));
      var b := GroupTail(ts, ps[n]);
      TailsSnoc(ts, ps);
      GroupTailFacts(ts, ps[n]);
      assert ps[n] !in ps[..n] by {
        LastNotInInit(ps);
      }
      NoDupAppend(a, b);
    }
  }

  /** In a list without repeats the last element is not among the earlier ones. */
  lemma LastNotInInit<T>(s: seq<T>)
    requires s != [] && NoDup(s)
    ensures s[|s| - 1] !in s[..|s| - 1]
  {
    var init := s[..|s| - 1];
    forall k | 0 <= k < |init|
      ensures init[k] != s[|s| - 1]
    {
      assert init[k] == s[k];
    }
  }

  /** The names the conversion pops for pointer p: all but the first, when it is shared. */
  function GroupTail(ts: seq<Tensor>, p: int): seq<string>
  {
    var names := NamesAt(ts, p);
    if |names| > 1 then names[1..] else []
  }

  /** One more pointer adds its group's tail to the popped names. */
  lemma TailsSnoc(ts: seq<Tensor>, ps: seq<int>)
    requires ps != []
    ensures Tails(GroupsOf(ts, ps)) == Tails(GroupsOf(ts, ps[..|ps| - 1])) + GroupTail(ts, ps[|ps| - 1])
  {
    var n := |ps| - 1;
    var init := GroupsOf(ts, ps[..n]);
    var names := NamesAt(ts, ps[n]);
    if |names| > 1 {
      var groups := init + [names];
      assert GroupsOf(ts, ps) == groups;
      assert groups[..|groups| - 1] == init;
    } else {
      assert init + [] == init;
      assert GroupsOf(ts, ps) == init;
      assert Tails(init) + [] == Tails(init);
    }
  }

  /** A group's tail repeats no name, and each of its names has pointer p. */
  lemma GroupTailFacts(ts: seq<Tensor>, p: int)
    requires DistinctNames(ts)
    ensures NoDup(GroupTail(ts, p))
    ensures forall name :: name in GroupTail(ts, p) ==> name in ToMap(ts) && ToMap(ts)[name] == p
  {
    var names := NamesAt(ts, p);
    var b := GroupTail(ts, p);
    NamesAtNoDup(ts, p);
    forall k, l | 0 <= k < l < |b|
      ensures b[k] != b[l]
    {
      assert b[k] == names[k + 1] && b[l] == names[l + 1];
    }
    forall name | name in b
      ensures name in ToMap(ts) && ToMap(ts)[name] == p
    {
      NamesAtIff(ts, p, name);
    }
  }

  /** Two lists without repeats and with no common element concatenate to one without repeats. */
  lemma NoDupAppend<T>(a: seq<T>, b: seq<T>)
    requires NoDup(a) && NoDup(b)
    requires forall x :: x in a ==> x !in b
    ensures NoDup(a + b)
  {
    forall i, j | 0 <= i < j < |a + b|
      ensures (a + b)[i] != (a + b)[j]
    {
      if j < |a| {
        assert (a + b)[i] == a[i] && (a + b)[j] == a[j];
      } else if i >= |a| {
        assert (a + b)[i] == b[i - |a|] && (a + b)[j] == b[j - |a|];
      } else {
        assert (a + b)[i] == a[i] && (a + b)[j] == b[j - |a|];
        assert a[i] in a && b[j - |a|] in b;
      }
    }
  }

  /**
   * After the conversion pops the shared names, exactly one name per pointer remains: the
   * first one the state dict lists for it.
   */
  lemma ConvertKeepsFirstNames(ts: seq<Tensor>)
    requires DistinctNames(ts)
    ensures var m := ToMap(ts);
            var r := PopAll(m, Tails(SharedGroups(ts)));
            r.Ok? && (forall name :: name in r.value <==> name in m && NamesAt(ts, m[name]) != [] && NamesAt(ts, m[name])[0] == name)
            && forall name :: name in r.value ==> r.value[name] == m[name]
  {
    var m := ToMap(ts);
    var tails := Tails(SharedGroups(ts));
    PtrsFacts(ts);
    SharedTailsDistinct(ts, Ptrs(ts));
    PopAllDistinct(m, tails);
    forall name | name in m
      ensures NamesAt(ts, m[name]) != [] && (name in tails <==> NamesAt(ts, m[name])[0] != name)
    {
      PoppedIffNotFirst(ts, name);
    }
  }

  /** A name of the dict is popped exactly when it is not the first name of its pointer. */
  lemma PoppedIffNotFirst(ts: seq<Tensor>, name: string)
    requires DistinctNames(ts) && name in ToMap(ts)
    ensures NamesAt(ts, ToMap(ts)[name]) != []
    ensures name in Tails(SharedGroups(ts)) <==> NamesAt(ts, ToMap(ts)[name])[0] != name
  {
    var p := ToMap(ts)[name];
    var names := NamesAt(ts, p);
    NamesAtIff(ts, p, name);
    if name in Tails(SharedGroups(ts)) {
      PoppedNotFirst(ts, name);
    } else if names[0] != name {
      NotFirstPopped(ts, name);
    }
  }

  /** A popped name is not the first of its pointer. */
  lemma PoppedNotFirst(ts: seq<Tensor>, name: string)
    requires DistinctNames(ts) && name in ToMap(ts) && name in Tails(SharedGroups(ts))
    ensures var names := NamesAt(ts, ToMap(ts)[name]); names != [] && names[0] != name
  {
    var p := ToMap(ts)[name];
    PoppedFromOwnGroup(ts, name);
    NamesAtNoDup(ts, p);
    FirstNotInRest(NamesAt(ts, p));
  }

  /** A popped name comes from the tail of its own pointer's list. */
  lemma PoppedFromOwnGroup(ts: seq<Tensor>, name: string)
    requires DistinctNames(ts) && name in ToMap(ts) && name in Tails(SharedGroups(ts))
    ensures var names := NamesAt(ts, ToMap(ts)[name]); names != [] && name in names[1..]
  {
    var shared := SharedGroups(ts);
    var p := ToMap(ts)[name];
    TailsIff(shared, name);
    var g :| 0 <= g < |shared| && shared[g] != [] && name in shared[g][1..];
    var group := shared[g];
    assert group in shared;
    GroupsOfIff(ts, Ptrs(ts), group);
    var q :| q in Ptrs(ts) && group == NamesAt(ts, q);
    NamesAtIff(ts, q, name);
  }

  /** In a list without repeats the first element is not among the others. */
  lemma FirstNotInRest<T>(s: seq<T>)
    requires s != [] && NoDup(s)
    ensures s[0] !in s[1..]
  {
    forall k | 0 <= k < |s| - 1
      ensures s[1..][k] != s[0]
    {
      assert s[1..][k] == s[k + 1];
    }
  }

  /** A name that is not the first of its pointer is popped. */
  lemma NotFirstPopped(ts: seq<Tensor>, name: string)
    requires DistinctNames(ts) && name in ToMap(ts)
    requires var names := NamesAt(ts, ToMap(ts)[name]); names != [] && names[0] != name
    ensures name in Tails(SharedGroups(ts))
  {
    var shared := SharedGroups(ts);
    var p := ToMap(ts)[name];
    var names := NamesAt(ts, p);
    NamesAtIff(ts, p, name);
    var k :| 0 <= k < |names| && names[k] == name;
    assert names[1..][k - 1] == name;
    PtrsFacts(ts);
    GroupsOfIff(ts, Ptrs(ts), names);
    var g :| 0 <= g < |shared| && shared[g] == names;
    TailsIff(shared, name);
  }

  /** The converted dict has no two names on one pointer and keeps a name for every pointer. */
  lemma ConvertedHasNoSharedPointers(ts: seq<Tensor>, i: nat)
    requires DistinctNames(ts) && i < |ts|
    ensures var r := PopAll(ToMap(ts), Tails(SharedGroups(ts)));
            r.Ok? && (forall a, b :: a in r.value && b in r.value && r.value[a] == r.value[b] ==> a == b)
            && NamesAt(ts, ts[i].dataPtr) != [] && NamesAt(ts, ts[i].dataPtr)[0] in r.value && r.value[NamesAt(ts, ts[i].dataPtr)[0]] == ts[i].dataPtr
  {
    var m := ToMap(ts);
    ConvertKeepsFirstNames(ts);
    var p := ts[i].dataPtr;
    var names := NamesAt(ts, p);
    ToMapAt(ts, i);
    NamesAtIff(ts, p, ts[i].name);
    assert names != [];
    NamesAtIff(ts, p, names[0]);
  }

  // ---------------------------------------------------------------- prepare_hf_model_weights

  function EndsWith(s: string, suffix: string): bool
  {
    |suffix| <= |s| && s[|s| - |suffix|..] == suffix
  }

  /** A pattern of the form `*<suffix>` with no other wildcard, as all the weight patterns are. */
  predicate SuffixPattern(pattern: string)
  {
    |pattern| >= 1 && pattern[0] == '*' && forall c :: 1 <= c < |pattern| ==> pattern[c] !in "*?["
  }

  /** fnmatch of a name against a suffix pattern: the name ends with the suffix. */
  function Matches(name: string, pattern: string): bool
    requires SuffixPattern(pattern)
  {
    EndsWith(name, pattern[1..])
  }

  /**
   * The names of `names` matching the pattern, in order; with `skipHidden` the names
   * starting with '.', which a glob's `*` does not match, are skipped.
   */
  function MatchingNames(names: seq<string>, pattern: string, skipHidden: bool): (r: seq<string>)
    requires SuffixPattern(pattern)
    ensures |r| <= |names|
  {
    if names == [] then []
    else
      var n := |names| - 1;
      var name := names[n];
      MatchingNames(names[..n], pattern, skipHidden)
        + (if Matches(name, pattern) && !(skipHidden && Hidden(name)) then [name] else [])
  }

  /** A name starting with '.', which a glob's `*` does not match. */
  predicate Hidden(name: string)
  {
    |name| > 0 && name[0] == '.'
  }

  /** A name is selected exactly when it is listed, matches, and is not a skipped hidden name. */
  lemma {:induction false} MatchingNamesIff(names: seq<string>, pattern: string, skipHidden: bool, name: string)
    requires SuffixPattern(pattern)
    ensures name in MatchingNames(names, pattern, skipHidden) <==>
              name in names && Matches(name, pattern) && !(skipHidden && Hidden(name))
    decreases |names|
  {
    if names != [] {
      var n := |names| - 1;
      MatchingNamesIff(names[..n], pattern, skipHidden, name);
      assert names == names[..n] + [names[n]];
    }
  }

  /** The patterns each load format allows, and whether it forces safetensors. */
  function AllowPatterns(loadFormat: string, fallBackToPt: bool): (r: Result<(seq<string>, bool), WeightError>)
    ensures r.Err? <==> loadFormat !in ["auto", "safetensors", "pt", "npcache"]
    ensures r.Ok? ==> r.value.0 != [] && (forall k :: 0 <= k < |r.value.0| ==> SuffixPattern(r.value.0[k]))
    ensures r.Ok? ==> (r.value.1 <==> loadFormat == "safetensors")
    ensures r.Ok? ==> ("*.pt" in r.value.0 <==> fallBackToPt || loadFormat == "pt")
    ensures r.Ok? ==> ("*.safetensors" in r.value.0 <==> loadFormat in ["auto", "safetensors"])
  {
    var base :=
      if loadFormat == "auto" then Ok((["*.safetensors", "*.bin"], false))
      else if loadFormat == "safetensors" then Ok((["*.safetensors"], true))
      else if loadFormat == "pt" then Ok((["*.pt"], false))
      else if loadFormat == "npcache" then Ok((["*.bin"], false))
      else Err(UnknownLoadFormat);
    if base.Err? then base
    else if fallBackToPt then Ok((base.value.0 + ["*.pt"], base.value.1))
    else base
  }

  /** The index of the first pattern that matches some name, if any. */
  function FirstMatching(patterns: seq<string>, names: seq<string>, skipHidden: bool): (r: Option<nat>)
    requires forall k :: 0 <= k < |patterns| ==> SuffixPattern(patterns[k])
    ensures r.Some? ==> r.value < |patterns| && MatchingNames(names, patterns[r.value], skipHidden) != []
    ensures forall k :: 0 <= k < |patterns| && (r.None? || k < r.value) ==> MatchingNames(names, patterns[k], skipHidden) == []
  {
    if patterns == [] then None
    else if MatchingNames(names, patterns[0], skipHidden) != [] then Some(0)
    else
      var rest := FirstMatching(patterns[1..], names, skipHidden);
      if rest.None? then None else Some(rest.value + 1)
  }

  /**
   * Before downloading, keep only the first pattern that matches a file of the remote
   * repository, or all of them when none does.
   */
  method NarrowPatterns(allowPatterns: seq<string>, fileList: seq<string>) returns (patterns: seq<string>)
    requires forall k :: 0 <= k < |allowPatterns| ==> SuffixPattern(allowPatterns[k])
    ensures patterns == match FirstMatching(allowPatterns, fileList, false)
                        case Some(k) => [allowPatterns[k]]
                        case None => allowPatterns
  {
    patterns := allowPatterns;
    for k := 0 to |allowPatterns|
      invariant patterns == allowPatterns
      invariant forall k' :: 0 <= k' < k ==> MatchingNames(fileList, allowPatterns[k'], false) == []
    {
      var matching := MatchingNames(fileList, allowPatterns[k], false);
      if |matching| > 0 {
        FirstMatchingIs(allowPatterns, fileList, false, k);
        patterns := [allowPatterns[k]];
        break;
      }
    }
  }

  /** The first pattern with a match is found where every earlier one has none. */
  lemma FirstMatchingIs(patterns: seq<string>, names: seq<string>, skipHidden: bool, k: nat)
    requires forall k :: 0 <= k < |patterns| ==> SuffixPattern(patterns[k])
    requires k < |patterns| && MatchingNames(names, patterns[k], skipHidden) != []
    requires forall k' :: 0 <= k' < k ==> MatchingNames(names, patterns[k'], skipHidden) == []
    ensures FirstMatching(patterns, names, skipHidden) == Some(k)
  {
  }

  /**
   * Collect the weight files of the first pattern whose glob over the model folder is
   * non-empty, and note whether that pattern is the safetensors one.
   */
  method CollectWeightFiles(allowPatterns: seq<string>, folder: seq<string>)
    returns (files: seq<string>, pickedSafetensors: bool)
    requires forall k :: 0 <= k < |allowPatterns| ==> SuffixPattern(allowPatterns[k])
    ensures match FirstMatching(allowPatterns, folder, true)
            case Some(k) => files == MatchingNames(folder, allowPatterns[k], true)
                            && (pickedSafetensors <==> allowPatterns[k] == "*.safetensors")
            case None => files == [] && !pickedSafetensors
  {
    files := [];
    pickedSafetensors := false;
    for k := 0 to |allowPatterns|
      invariant files == [] && !pickedSafetensors
      invariant forall k' :: 0 <= k' < k ==> MatchingNames(folder, allowPatterns[k'], true) == []
    {
      files := files + MatchingNames(folder, allowPatterns[k], true);
      if |files| > 0 {
        FirstMatchingIs(allowPatterns, folder, true, k);
        if allowPatterns[k] == "*.safetensors" {
          pickedSafetensors := true;
        }
        break;
      }
    }
  }

  /** The training-only files excluded unless safetensors are used. */
  const Blacklist: seq<string> := ["training_args.bin", "optimizer.bin", "optimizer.pt", "scheduler.pt", "scaler.pt"]

  predicate Blacklisted(file: string)
  {
    exists k :: 0 <= k < |Blacklist| && EndsWith(file, Blacklist[k])
  }

  /** The files that do not end with a blacklisted name, in order. */
  function DropBlacklisted(files: seq<string>): (r: seq<string>)
    ensures |r| <= |files|
    ensures forall f :: f in r <==> f in files && !Blacklisted(f)
  {
    if files == [] then []
    else
      var n := |files| - 1;
      DropBlacklisted(files[..n]) + (if Blacklisted(files[n]) then [] else [files[n]])
  }

  /**
   * The files and format prepare_hf_model_weights settles on, given the remote repository's
   * file list (used only when the model is not local) and the model folder's contents.
   */
  function PreparedWeights(loadFormat: string, fallBackToPt: bool, isLocal: bool, remoteFiles: seq<string>,
                           folder: seq<string>): (r: Result<(seq<string>, bool), WeightError>)
    ensures r.Ok? ==> r.value.0 != [] && |r.value.0| <= |folder|
  {
    var allowed := AllowPatterns(loadFormat, fallBackToPt);
    if allowed.Err? then Err(allowed.error)
    else
      var (patterns0, forced) := allowed.value;
      var patterns :=
        if isLocal then patterns0
        else match FirstMatching(patterns0, remoteFiles, false)
             case Some(k) => [patterns0[k]]
             case None => patterns0;
      var first := FirstMatching(patterns, folder, true);
      var collected := if first.None? then [] else MatchingNames(folder, patterns[first.value], true);
      var useSafetensors := forced || (first.Some? && patterns[first.value] == "*.safetensors");
      var files := if useSafetensors then collected else DropBlacklisted(collected);
      if files == [] then Err(NoWeightFiles) else Ok((files, useSafetensors))
  }

  /**
   * prepare_hf_model_weights without the download: the load format fixes the patterns, a
   * remote repository narrows them to the first one it has files for, the first pattern
   * with files in the folder picks the files, and unless safetensors are used the
   * training-only files are dropped; an empty result is an error.
   */
  method PrepareHfModelWeights(loadFormat: string, fallBackToPt: bool, isLocal: bool, remoteFiles: seq<string>,
                               folder: seq<string>) returns (r: Result<(seq<string>, bool), WeightError>)
    ensures r == PreparedWeights(loadFormat, fallBackToPt, isLocal, remoteFiles, folder)
  {
    var allowed := AllowPatterns(loadFormat, fallBackToPt);
    if allowed.Err? {
      return Err(allowed.error);
    }
    var useSafetensors := allowed.value.1;
    var allowPatterns := allowed.value.0;
    if !isLocal {
      allowPatterns := NarrowPatterns(allowPatterns, remoteFiles);
    }
    var hfWeightsFiles, picked := CollectWeightFiles(allowPatterns, folder);
    useSafetensors := useSafetensors || picked;
    if !useSafetensors {
      hfWeightsFiles := DropBlacklisted(hfWeightsFiles);
    }
    if |hfWeightsFiles| == 0 {
      return Err(NoWeightFiles);
    }
    r := Ok((hfWeightsFiles, useSafetensors));
  }

  /**
   * What prepare_hf_model_weights returns is a non-empty list of folder files that match
   * an allowed pattern, and none of them is training-only unless safetensors are used.
   */
  lemma PreparedWeightsSound(loadFormat: string, fallBackToPt: bool, isLocal: bool, remoteFiles: seq<string>,
                             folder: seq<string>, f: string)
    requires var r := PreparedWeights(loadFormat, fallBackToPt, isLocal, remoteFiles, folder);
             r.Ok? && f in r.value.0
    ensures var r := PreparedWeights(loadFormat, fallBackToPt, isLocal, remoteFiles, folder);
            var patterns := AllowPatterns(loadFormat, fallBackToPt).value.0;
            r.value.0 != [] && f in folder && (exists k :: 0 <= k < |patterns| && Matches(f, patterns[k]))
            && (!r.value.1 ==> !Blacklisted(f))
  {
    var patterns0 := AllowPatterns(loadFormat, fallBackToPt).value.0;
    var patterns :=
      if isLocal then patterns0
      else match FirstMatching(patterns0, remoteFiles, false)
           case Some(k) => [patterns0[k]]
           case None => patterns0;
    var first := FirstMatching(patterns, folder, true);
    var k := first.value;
    MatchingNamesIff(folder, patterns[k], true, f);
    if !isLocal && FirstMatching(patterns0, remoteFiles, false).Some? {
      assert patterns[k] == patterns0[FirstMatching(patterns0, remoteFiles, false).value];
    }
  }

  /** The safetensors load format never falls back to .bin files, and files of other patterns are not mixed in. */
  lemma SafetensorsFormatLoadsSafetensors(fallBackToPt: bool, isLocal: bool, remoteFiles: seq<string>,
                                          folder: seq<string>, f: string)
    requires var r := PreparedWeights("safetensors", fallBackToPt, isLocal, remoteFiles, folder);
             r.Ok? && f in r.value.0
    ensures PreparedWeights("safetensors", fallBackToPt, isLocal, remoteFiles, folder).value.1
    ensures EndsWith(f, ".safetensors") || (fallBackToPt && EndsWith(f, ".pt"))
  {
    PreparedWeightsSound("safetensors", fallBackToPt, isLocal, remoteFiles, folder, f);
    var patterns := AllowPatterns("safetensors", fallBackToPt).value.0;
    assert patterns == if fallBackToPt then ["*.safetensors", "*.pt"] else ["*.safetensors"];
    var k :| 0 <= k < |patterns| && Matches(f, patterns[k]);
  }

  // ---------------------------------------------------------------- kv_cache_scales_loader

  /** The layers 0 .. n - 1. */
  function Range(n: nat): (s: set<int>)
    ensures forall i :: i in s <==> 0 <= i < n
    ensures |s| == n
  {
    if n == 0 then {}
    else
      Range(n - 1) + {n - 1}
  }

  /**
   * The checks kv_cache_scales_loader makes on the parsed map from TP rank to
   * (layer -> scale), in order: the map is non-empty; its largest rank is tp_size - 1;
   * every rank lists exactly num_hidden_layers layers; every rank below tp_size is present;
   * tp_rank is present; and tp_rank's map has every layer below num_hidden_layers.
   */
  predicate ScalesMapValid(rankMap: map<int, map<int, real>>, tpRank: int, tpSize: int, numHiddenLayers: int)
  {
    && |rankMap| != 0
    && tpSize - 1 in rankMap && (forall rank :: rank in rankMap ==> rank <= tpSize - 1)
    && (forall rank :: rank in rankMap ==> |rankMap[rank]| == numHiddenLayers)
    && (forall i :: 0 <= i < tpSize ==> i in rankMap)
    && tpRank in rankMap
    && (forall i :: 0 <= i < numHiddenLayers ==> i in rankMap[tpRank])
  }

  /**
   * kv_cache_scales_loader after parsing: tp_rank's layer scales when every check passes,
   * and nothing (so that scales default to 1.0) when any fails.
   */
  function KvCacheScales(rankMap: map<int, map<int, real>>, tpRank: int, tpSize: int, numHiddenLayers: int)
    : (r: map<int, real>)
    ensures !ScalesMapValid(rankMap, tpRank, tpSize, numHiddenLayers) ==> r == map[]
    ensures ScalesMapValid(rankMap, tpRank, tpSize, numHiddenLayers) ==>
              tpRank in rankMap && r == rankMap[tpRank]
              && forall layer :: layer in r <==> 0 <= layer < numHiddenLayers
  {
    if ScalesMapValid(rankMap, tpRank, tpSize, numHiddenLayers) then
      ExactKeys(rankMap[tpRank], numHiddenLayers);
      rankMap[tpRank]
    else map[]
  }

  /** A map with n keys that holds every key below n holds no other. */
  lemma ExactKeys(m: map<int, real>, n: int)
    requires n >= 0 && |m| == n && forall i :: 0 <= i < n ==> i in m
    ensures forall i :: i in m <==> 0 <= i < n
  {
    var r := Range(n);
    assert r <= m.Keys;
    assert r * m.Keys == r;
    assert |m.Keys - r| == 0;
    assert m.Keys - r == {};
  }

  /** With a valid map every TP rank from 0 to tp_size - 1 has its scales, for every layer. */
  lemma ValidScalesCoverEveryRank(rankMap: map<int, map<int, real>>, tpSize: int, numHiddenLayers: int, rank: int)
    requires 0 <= rank < tpSize && ScalesMapValid(rankMap, 0, tpSize, numHiddenLayers)
    ensures ScalesMapValid(rankMap, rank, tpSize, numHiddenLayers) <==>
            forall i :: 0 <= i < numHiddenLayers ==> i in rankMap[rank]
    ensures |KvCacheScales(rankMap, rank, tpSize, numHiddenLayers)| ==
            if ScalesMapValid(rankMap, rank, tpSize, numHiddenLayers) then numHiddenLayers else 0
  {
  }

  // ---------------------------------------------------------------- default_weight_loader

  /**
   * default_weight_loader: copy the loaded weight into the parameter when their sizes
   * agree, otherwise fail the assertion and leave the parameter as it was.
   */
  method DefaultWeightLoader(param: array<real>, paramSize: seq<nat>, loadedWeight: seq<real>, loadedSize: seq<nat>)
    returns (r: Result<(), WeightError>)
    requires |loadedWeight| == param.Length || paramSize != loadedSize
    modifies param
    ensures r.Ok? <==> paramSize == loadedSize
    ensures r.Ok? ==> param[..] == loadedWeight
    ensures r.Err? ==> param[..] == old(param[..])
  {
    if paramSize != loadedSize {
      return Err(SizeMismatch);
    }
    forall i | 0 <= i < param.Length {
      param[i] := loadedWeight[i];
    }
    r := Ok(());
  }
}
