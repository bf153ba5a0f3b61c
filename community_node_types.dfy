/** The cache of vetted community node types: the attributes of each community node by name,
    the node type descriptions and the names of the vetted node types, refreshed from the
    community-node registry when they are older than eight hours.

    The registry request is left to the caller: its result is passed in, `None` when the request
    failed. The clock is passed in as `now` (milliseconds). */
module CommunityNodeTypes {
  import opened Wrappers
  import opened Text

  /** Eight hours, in milliseconds. */
  const UpdateInterval: int := 8 * 60 * 60 * 1000

  datatype NodeTypeDescription = NodeTypeDescription(name: string, displayName: string)

  /** The attributes the registry gives for a community node, without its description. */
  datatype CommunityNodeAttributes = CommunityNodeAttributes(name: string, packageName: string, details: seq<(string, string)>)

  /** One entry of the registry's answer: the attributes and the node type description. */
  datatype Entry = Entry(id: int, attributes: CommunityNodeAttributes, nodeDescription: NodeTypeDescription)

  // The cache rebuilt from an answer

  /** The keys of the attributes object after assigning `name`, taken in insertion order: a new
      key goes last, an existing key keeps its place. (A JavaScript object lists integer-like keys
      first, and `__proto__` adds no key; the model does not capture either.) */
  function WithKey(keys: seq<string>, name: string): seq<string> {
    if name in keys then keys else keys + [name]
  }

  /** The keys of the attributes object after assigning the entries in order. */
  function CatalogueKeys(data: seq<Entry>): seq<string> {
    if data == [] then [] else WithKey(CatalogueKeys(data[..|data| - 1]), data[|data| - 1].attributes.name)
  }

  /** The attributes by name after assigning the entries in order: a later entry with the same
      name overwrites an earlier one. */
  function Catalogue(data: seq<Entry>): map<string, CommunityNodeAttributes> {
    if data == [] then map[]
    else Catalogue(data[..|data| - 1])[data[|data| - 1].attributes.name := data[|data| - 1].attributes]
  }

  function Descriptions(data: seq<Entry>): (r: seq<NodeTypeDescription>)
    ensures |r| == |data| && forall i :: 0 <= i < |data| ==> r[i] == data[i].nodeDescription
  {
    seq(|data|, i requires 0 <= i < |data| => data[i].nodeDescription)
  }

  function VettedNames(data: seq<Entry>): (r: seq<string>)
    ensures |r| == |data| && forall i :: 0 <= i < |data| ==> r[i] == data[i].nodeDescription.name
  {
    seq(|data|, i requires 0 <= i < |data| => data[i].nodeDescription.name)
  }

  predicate Distinct(keys: seq<string>) {
    forall i, j :: 0 <= i < j < |keys| ==> keys[i] != keys[j]
  }

  /** The keys list every name once, and exactly the names of the entries. */
  lemma {:induction false} CatalogueKeysMatch(data: seq<Entry>)
    ensures Distinct(CatalogueKeys(data))
    ensures forall n :: n in CatalogueKeys(data) <==> n in Catalogue(data)
    ensures forall n :: n in Catalogue(data) <==> exists i :: 0 <= i < |data| && data[i].attributes.name == n
  {
    if data != [] {
      var prefix := data[..|data| - 1];
      CatalogueKeysMatch(prefix);
      forall n | n in Catalogue(data)
        ensures exists i :: 0 <= i < |data| && data[i].attributes.name == n
      {
        if n != data[|data| - 1].attributes.name {
          assert n in Catalogue(prefix);
          var i :| 0 <= i < |prefix| && prefix[i].attributes.name == n;
          assert data[i] == prefix[i];
        }
      }
      forall n | exists i :: 0 <= i < |data| && data[i].attributes.name == n
        ensures n in Catalogue(data)
      {
        var i :| 0 <= i < |data| && data[i].attributes.name == n;
        if i < |prefix| {
          assert prefix[i] == data[i];
        }
      }
    }
  }

  /** One more entry: its attributes assigned under its name, its description and name appended. */
  lemma CacheStep(data: seq<Entry>, i: nat)
    requires i < |data|
    ensures var e := data[i];
      && Catalogue(data[..i + 1]) == Catalogue(data[..i])[e.attributes.name := e.attributes]
      && CatalogueKeys(data[..i + 1]) == WithKey(CatalogueKeys(data[..i]), e.attributes.name)
      && Descriptions(data[..i + 1]) == Descriptions(data[..i]) + [e.nodeDescription]
      && VettedNames(data[..i + 1]) == VettedNames(data[..i]) + [e.nodeDescription.name]
  {
    var p := data[..i + 1];
    assert p[..i] == data[..i] && p[i] == data[i];
  }

  /** A name maps to the attributes of the last entry with that name. */
  lemma {:induction false} CatalogueLastWins(data: seq<Entry>, i: nat)
    requires i < |data|
    requires forall j :: i < j < |data| ==> data[j].attributes.name != data[i].attributes.name
    ensures data[i].attributes.name in Catalogue(data)
    ensures Catalogue(data)[data[i].attributes.name] == data[i].attributes
  {
    if i < |data| - 1 {
      var prefix := data[..|data| - 1];
      assert prefix[i] == data[i];
      CatalogueLastWins(prefix, i);
    }
  }

  // Staleness

  /** An update is due when there has been none (timestamp 0), or the last one is more than
      eight hours old. */
  function UpdateDue(lastUpdate: int, now: int): (r: bool) {
    lastUpdate == 0 || now - lastUpdate > UpdateInterval
  }

  /** Right after an update at a non-zero time, none is due for eight hours, and one is due from
      then on; once due, an update stays due as time goes on. */
  lemma UpdateDueWindow(lastUpdate: int, now: int, later: int)
    requires lastUpdate != 0 && now <= later
    ensures lastUpdate <= now <= lastUpdate + UpdateInterval ==> !UpdateDue(lastUpdate, now)
    ensures now > lastUpdate + UpdateInterval ==> UpdateDue(lastUpdate, now)
    ensures UpdateDue(lastUpdate, now) ==> UpdateDue(lastUpdate, later)
  {
  }

  // Looking a node up

  /** The first index from `i` on where `p` occurs in `s`. */
  function FirstOccurrence(s: string, p: string, i: nat): (r: Option<nat>)
    ensures r.Some? ==> i <= r.value && StartsWithAt(s, r.value, p)
    ensures r.Some? ==> forall k :: i <= k < r.value ==> !StartsWithAt(s, k, p)
    ensures r.None? ==> forall k :: i <= k ==> !StartsWithAt(s, k, p)
    decreases |s| - i
  {
    if i + |p| > |s| then None
    else if StartsWithAt(s, i, p) then Some(i)
    else FirstOccurrence(s, p, i + 1)
  }

  /** JavaScript's `s.replace(p, '')` with a string pattern: the first occurrence of `p` is
      removed, and `s` is kept when `p` does not occur. */
  function RemoveFirst(s: string, p: string): (r: string)
    ensures FirstOccurrence(s, p, 0).None? ==> r == s
    ensures FirstOccurrence(s, p, 0).Some? ==>
              var k := FirstOccurrence(s, p, 0).value; |r| == |s| - |p| && s == r[..k] + p + r[k..]
  {
    match FirstOccurrence(s, p, 0)
    case None => s
    case Some(k) =>
      var r := s[..k] + s[k + |p|..];
      assert s == r[..k] + p + r[k..] by {
        assert r[..k] == s[..k] && r[k..] == s[k + |p|..];
        assert s[k..k + |p|] == p;
        assert s == s[..k] + s[k..k + |p|] + s[k + |p|..];
      }
      r
  }

  /** The first of `keys` that contains `p`. */
  function FirstKeyContaining(keys: seq<string>, p: string): (r: Option<nat>)
    ensures r.Some? ==> r.value < |keys| && Contains(keys[r.value], p)
    ensures r.Some? ==> forall k :: 0 <= k < r.value ==> !Contains(keys[k], p)
    ensures r.None? ==> forall k :: 0 <= k < |keys| ==> !Contains(keys[k], p)
  {
    if keys == [] then None
    else if Contains(keys[0], p) then Some(0)
    else
      match FirstKeyContaining(keys[1..], p)
      case None => None
      case Some(k) => Some(k + 1)
  }

  // The service

  class Service {
    /** The attributes by node name, and the names in the order the object lists its keys. */
    var communityNodes: map<string, CommunityNodeAttributes>
    var nodeNames: seq<string>
    var nodesDescriptions: seq<NodeTypeDescription>
    var vettedNodes: seq<string>
    var lastUpdateTimestamp: int

    /** The key list and the map agree, and each vetted name is the name of the description at
        the same place. */
    ghost predicate Valid()
      reads this
    {
      && Distinct(nodeNames)
      && (forall n :: n in nodeNames <==> n in communityNodes)
      && |vettedNodes| == |nodesDescriptions|
      && (forall i :: 0 <= i < |vettedNodes| ==> vettedNodes[i] == nodesDescriptions[i].name)
    }

    constructor ()
      ensures Valid()
      ensures communityNodes == map[] && nodeNames == [] && nodesDescriptions == [] && vettedNodes == []
      ensures lastUpdateTimestamp == 0
    {
      communityNodes, nodeNames, nodesDescriptions, vettedNodes := map[], [], [], [];
      lastUpdateTimestamp := 0;
    }

    /** Replaces the whole cache by what `data` holds, and records the time, unless `data` is
        empty, in which case nothing changes. */
    method UpdateData(data: seq<Entry>, now: int)
      requires Valid()
      modifies this
      ensures Valid()
      ensures |data| == 0 ==> unchanged(this)
      ensures |data| > 0 ==>
                && communityNodes == Catalogue(data) && nodeNames == CatalogueKeys(data)
                && nodesDescriptions == Descriptions(data) && vettedNodes == VettedNames(data)
                && lastUpdateTimestamp == now
    {
      if |data| == 0 {
        return;
      }
      ResetData();
      var i := 0;
      while i < |data|
        invariant 0 <= i <= |data|
        invariant communityNodes == Catalogue(data[..i]) && nodeNames == CatalogueKeys(data[..i])
        invariant nodesDescriptions == Descriptions(data[..i]) && vettedNodes == VettedNames(data[..i])
      {
        var entry := data[i];
        CacheStep(data, i);
        communityNodes := communityNodes[entry.attributes.name := entry.attributes];
        if entry.attributes.name !in nodeNames {
          nodeNames := nodeNames + [entry.attributes.name];
        }
        nodesDescriptions := nodesDescriptions + [entry.nodeDescription];
        vettedNodes := vettedNodes + [entry.nodeDescription.name];
        i := i + 1;
      }
      assert data[..i] == data;
      CatalogueKeysMatch(data);
      lastUpdateTimestamp := now;
    }

    /** Empties the three collections; the timestamp stays. */
    method ResetData()
      modifies this
      ensures Valid()
      ensures communityNodes == map[] && nodeNames == [] && nodesDescriptions == [] && vettedNodes == []
      ensures lastUpdateTimestamp == old(lastUpdateTimestamp)
    {
      communityNodes, nodeNames := map[], [];
      nodesDescriptions := [];
      vettedNodes := [];
    }

    function UpdateRequired(now: int): bool
      reads this
    {
      UpdateDue(lastUpdateTimestamp, now)
    }

    /** The descriptions, refreshed first from the registry's answer `fetched` when an update is
        due or there are none; a failed request (`None`) or an empty answer leaves the cache as
        it was. */
    method GetDescriptions(now: int, fetched: Option<seq<Entry>>) returns (r: seq<NodeTypeDescription>)
      requires Valid()
      modifies this
      ensures Valid()
      ensures r == nodesDescriptions
      ensures var refresh := old(UpdateRequired(now)) || |old(nodesDescriptions)| == 0;
              if refresh && fetched.Some? && |fetched.value| > 0 then
                && communityNodes == Catalogue(fetched.value) && nodeNames == CatalogueKeys(fetched.value)
                && nodesDescriptions == Descriptions(fetched.value) && vettedNodes == VettedNames(fetched.value)
                && lastUpdateTimestamp == now
              else unchanged(this)
    {
      if UpdateRequired(now) || |nodesDescriptions| == 0 {
        if fetched.Some? {
          UpdateData(fetched.value, now);
        }
      }
      r := nodesDescriptions;
    }

    /** The attributes of the node called `nodeName` once the preview token is removed from it. */
    function GetCommunityNodeAttributes(nodeName: string, previewToken: string): (r: Option<CommunityNodeAttributes>)
      reads this
      ensures r.Some? <==> RemoveFirst(nodeName, previewToken) in communityNodes
      ensures r.Some? ==> r.value == communityNodes[RemoveFirst(nodeName, previewToken)]
    {
      var name := RemoveFirst(nodeName, previewToken);
      if name in communityNodes then Some(communityNodes[name]) else None
    }

    /** The attributes under the first key, in key order, that contains `packageName`; none when
        no key does, or when that key is the empty string. */
    function FindVetted(packageName: string): (r: Option<CommunityNodeAttributes>)
      reads this
      requires Valid()
      ensures r.Some? ==>
                exists k :: (0 <= k < |nodeNames| && Contains(nodeNames[k], packageName)
                  && (forall j :: 0 <= j < k ==> !Contains(nodeNames[j], packageName))
                  && nodeNames[k] != [] && r.value == communityNodes[nodeNames[k]])
      ensures (forall k :: 0 <= k < |nodeNames| ==> !Contains(nodeNames[k], packageName)) ==> r.None?
      ensures forall k ::
                (0 <= k < |nodeNames| && Contains(nodeNames[k], packageName)
                 && (forall j :: 0 <= j < k ==> !Contains(nodeNames[j], packageName))) ==>
                  r == (if nodeNames[k] == [] then None else Some(communityNodes[nodeNames[k]]))
    {
      match FirstKeyContaining(nodeNames, packageName)
      case None => None
      case Some(k) => if nodeNames[k] == [] then None else Some(communityNodes[nodeNames[k]])
    }
  }
}
