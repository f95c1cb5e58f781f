/** The label index: class names resolved to opaque label ids, one name at a time
    (`ontology.id[ontology.name.str.fullmatch(name)].item()`) and for a whole
    list of names (the `cls_id += [...]` loop). */
module Ontology {
  import opened Outcomes

  /** One ontology entry. */
  datatype Entry = Entry(id: string, name: string)

  /** Entry `i` is the one and only entry whose name is `name`. */
  ghost predicate UniquelyNamed(ontology: seq<Entry>, name: string, i: int) {
    && 0 <= i < |ontology|
    && ontology[i].name == name
    && forall j :: 0 <= j < |ontology| && ontology[j].name == name ==> j == i
  }

  /** The ids of the entries whose name fully matches `name`, in ontology order
      (names carry no regular-expression metacharacters, so a full match is equality). */
  function MatchingIds(ontology: seq<Entry>, name: string): seq<string> {
    if ontology == [] then []
    else (if ontology[0].name == name then [ontology[0].id] else []) + MatchingIds(ontology[1..], name)
  }

  lemma {:induction false} NoMatchingIds(ontology: seq<Entry>, name: string)
    ensures MatchingIds(ontology, name) == [] <==> forall j :: 0 <= j < |ontology| ==> ontology[j].name != name
  {
    if ontology != [] {
      NoMatchingIds(ontology[1..], name);
      assert forall j :: 1 <= j < |ontology| ==> ontology[j] == ontology[1..][j - 1];
    }
  }

  /** Exactly one id matches precisely when one entry is uniquely named, and it is that entry's id. */
  lemma {:induction false} SingleMatchingId(ontology: seq<Entry>, name: string)
    ensures |MatchingIds(ontology, name)| == 1 <==> exists i :: UniquelyNamed(ontology, name, i)
    ensures forall i :: UniquelyNamed(ontology, name, i) ==> MatchingIds(ontology, name) == [ontology[i].id]
  {
    if ontology != [] {
      var rest := ontology[1..];
      assert forall j :: 1 <= j < |ontology| ==> ontology[j] == rest[j - 1];
      if ontology[0].name == name {
        NoMatchingIds(rest, name);
        if |MatchingIds(ontology, name)| == 1 {
          assert UniquelyNamed(ontology, name, 0);
        }
        forall i | UniquelyNamed(ontology, name, i)
          ensures MatchingIds(ontology, name) == [ontology[i].id]
        {
          assert i == 0;
        }
      } else {
        SingleMatchingId(rest, name);
        forall i | UniquelyNamed(ontology, name, i)
          ensures UniquelyNamed(rest, name, i - 1)
        {
        }
        forall i | UniquelyNamed(rest, name, i)
          ensures UniquelyNamed(ontology, name, i + 1)
        {
        }
      }
    }
  }

  /** `.item()` on the matching ids: the id when there is exactly one, an error otherwise. */
  function Resolve(ontology: seq<Entry>, name: string): (r: Result<string>)
    ensures r.Ok? <==> exists i :: UniquelyNamed(ontology, name, i)
    ensures forall i :: UniquelyNamed(ontology, name, i) ==> r == Ok(ontology[i].id)
    ensures r.Err? ==> r.error == LabelNotUnique
  {
    SingleMatchingId(ontology, name);
    var ids := MatchingIds(ontology, name);
    if |ids| == 1 then Ok(ids[0]) else Err(LabelNotUnique)
  }

  /** The `cls_id` accumulation: every name resolved in order; the first name that
      does not resolve aborts with its error. */
  method ResolveAll(ontology: seq<Entry>, names: seq<string>) returns (r: Result<seq<string>>)
    ensures r.Ok? <==> forall i :: 0 <= i < |names| ==> Resolve(ontology, names[i]).Ok?
    ensures r.Ok? ==> |r.value| == |names|
    ensures r.Ok? ==> forall i :: 0 <= i < |names| ==> Resolve(ontology, names[i]) == Ok(r.value[i])
    ensures r.Err? ==> r.error == LabelNotUnique
  {
    var clsId: seq<string> := [];
    for k := 0 to |names|
      invariant |clsId| == k
      invariant forall i :: 0 <= i < k ==> Resolve(ontology, names[i]) == Ok(clsId[i])
    {
      var id := Resolve(ontology, names[k]);
      if id.Err? {
        return Err(id.error);
      }
      clsId := clsId + [id.value];
    }
    return Ok(clsId);
  }
}
