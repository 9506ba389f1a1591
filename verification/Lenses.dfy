/** The lenses a question can be answered through and the registry that serves them. */
module Lenses {
  import opened Common

  /** Identifiers are used only through equality and order. */
  type Id = nat

  datatype Kind = General | Style

  datatype Family =
    | Contact | Scouting | Endurance | Adaptation | Systems | Concentration | Preservation
    | Unlisted(code: nat)

  /** `keywords` are the routing phrases; `rivals` the lenses it argues against. */
  datatype Lens = Lens(id: Id, kind: Kind, family: Family, keywords: seq<string>, rivals: seq<Id>)

  /** `defaultLens` is the identifier that a question routing nowhere falls back to. */
  datatype Registry = Registry(generals: seq<Lens>, byId: map<Id, Lens>, defaultLens: Id) {

    function Get(id: Id): Option<Lens> {
      if id in byId then Some(byId[id]) else None
    }

    /** Unknown identifiers are dropped. */
    function Resolve(ids: seq<Id>): seq<Lens> {
      if ids == [] then []
      else (if ids[0] in byId then [byId[ids[0]]] else []) + Resolve(ids[1..])
    }

    /** What start-up validation and the index establish: identifiers are unique across both rosters. */
    ghost predicate Valid() {
      && DistinctLenses(generals)
      && (forall g :: g in generals ==> g.kind == General && g.id in byId && byId[g.id] == g)
      && (forall id :: id in byId ==> byId[id].id == id && (byId[id].kind == General ==> byId[id] in generals))
    }
  }

  ghost predicate DistinctLenses(lenses: seq<Lens>) {
    forall i, j :: 0 <= i < j < |lenses| ==> lenses[i].id != lenses[j].id
  }

  function Ids(lenses: seq<Lens>): (s: set<Id>) {
    set i | 0 <= i < |lenses| :: lenses[i].id
  }

  function Families(lenses: seq<Lens>): (s: set<Family>) {
    set i | 0 <= i < |lenses| :: lenses[i].family
  }

  function GeneralsOnly(lenses: seq<Lens>): (r: seq<Lens>) {
    if lenses == [] then []
    else (if lenses[0].kind == General then [lenses[0]] else []) + GeneralsOnly(lenses[1..])
  }
}
