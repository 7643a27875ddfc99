/** Placeholders in demo boards: the collector and the substituter of backend/app/demo_bundle.py. */
module Placeholders {
  import opened Names
  import opened Portable

  predicate IsPlaceholder(s: string) {
    s != "" && s[0] == '@'
  }

  /** What `walk` collects: the keys behind every placeholder in a tree. */
  function References(node: Json): set<string> {
    match node
    case JString(s) => if IsPlaceholder(s) then {s[1..]} else {}
    case JArray(items) => set i, k | 0 <= i < |items| && k in References(items[i]) :: k
    case JObject(fields) => set f, k | f in fields && k in References(fields[f]) :: k
    case _ => {}
  }

  /** `resolve_placeholders` */
  function Resolve(node: Json, idmap: map<string, string>): Json {
    match node
    case JString(s) => if IsPlaceholder(s) then JString(if s in idmap then idmap[s] else "") else node
    case JArray(items) => JArray(seq(|items|, i requires 0 <= i < |items| => Resolve(items[i], idmap)))
    case JObject(fields) => JObject(map f | f in fields :: Resolve(fields[f], idmap))
    case _ => node
  }

  /** The collector covers the substituter: what a tree resolves to depends on its collected keys alone. */
  lemma {:induction false} ResolveNeedsReferencesOnly(node: Json, a: map<string, string>, b: map<string, string>)
    requires forall k :: k in References(node) ==>
               ("@" + k in a <==> "@" + k in b) && ("@" + k in a ==> a["@" + k] == b["@" + k])
    ensures Resolve(node, a) == Resolve(node, b)
    decreases node
  {
    match node
    case JString(s) =>
      if IsPlaceholder(s) {
        assert s == "@" + s[1..];
      }
    case JArray(items) =>
      forall i | 0 <= i < |items| ensures Resolve(items[i], a) == Resolve(items[i], b) {
        assert forall k :: k in References(items[i]) ==> k in References(node);
        ResolveNeedsReferencesOnly(items[i], a, b);
      }
    case JObject(fields) =>
      forall f | f in fields ensures Resolve(fields[f], a) == Resolve(fields[f], b) {
        assert forall k :: k in References(fields[f]) ==> k in References(node);
        ResolveNeedsReferencesOnly(fields[f], a, b);
      }
    case _ =>
  }

  /** No placeholder is left, when no identifier looks like one. */
  lemma {:induction false} NothingLeftToResolve(node: Json, idmap: map<string, string>)
    requires forall k :: k in idmap ==> !IsPlaceholder(idmap[k])
    ensures References(Resolve(node, idmap)) == {}
    decreases node
  {
    match node
    case JArray(items) =>
      forall i | 0 <= i < |items| ensures References(Resolve(items[i], idmap)) == {} {
        NothingLeftToResolve(items[i], idmap);
      }
    case JObject(fields) =>
      forall f | f in fields ensures References(Resolve(fields[f], idmap)) == {} {
        NothingLeftToResolve(fields[f], idmap);
      }
    case _ =>
  }

  /** The collector: the loop over boards adds to one set, which is listed in order. */
  method ReferencedQueryKeys(specs: seq<Json>) returns (listed: seq<string>)
    ensures Increasing(listed)
    ensures forall k :: k in listed <==> exists i :: 0 <= i < |specs| && k in References(specs[i])
  {
    var keys := {};
    for i := 0 to |specs|
      invariant keys == ReferencesOf(specs[..i])
    {
      keys := keys + References(specs[i]);
      assert specs[..i + 1][..i] == specs[..i];
    }
    assert specs[..|specs|] == specs;
    listed := Sorted(keys);
    forall k ensures k in keys <==> exists i :: 0 <= i < |specs| && k in References(specs[i]) {
      CollectedFromOne(specs, k);
    }
  }

  lemma {:induction false} CollectedFromOne(specs: seq<Json>, k: string)
    ensures k in ReferencesOf(specs) <==> exists i :: 0 <= i < |specs| && k in References(specs[i])
  {
    if specs != [] {
      var n := |specs| - 1;
      CollectedFromOne(specs[..n], k);
      if k in ReferencesOf(specs[..n]) {
        var i :| 0 <= i < n && k in References(specs[..n][i]);
        assert k in References(specs[i]);
      }
    }
  }

  function ReferencesOf(specs: seq<Json>): set<string> {
    if specs == [] then {} else ReferencesOf(specs[..|specs| - 1]) + References(specs[|specs| - 1])
  }

  lemma {:induction false} EveryReferenceIsCollected(specs: seq<Json>, i: nat)
    requires i < |specs|
    ensures References(specs[i]) <= ReferencesOf(specs)
  {
    if i < |specs| - 1 {
      EveryReferenceIsCollected(specs[..|specs| - 1], i);
    }
  }
}
