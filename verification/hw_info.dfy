/** Local and global device paths, and the text form of identifiers (hw_info.cc). */
module HwInfo {
  import opened Options
  import opened FiniteSets
  import opened Text

  type IdMap = map<string, string>

  // ---- Local and global ids ----

  predicate IsDevpath(id: string) { "/phys" <= id }

  /** One of the prefixes that UpdateIdToLocal may look up: the whole id, the part before the first ':', or the
      part before a '/' that comes earlier than that. Never the empty string. */
  predicate IsCut(id: string, n: nat) {
    0 < n <= |id| && (n == |id| || n == IndexOf(id, ':') || (n < IndexOf(id, ':') && id[n] == '/'))
  }

  /** The longest of these prefixes, up to length n, that is a key. */
  function LongestCut(idMap: IdMap, id: string, n: nat): (r: Option<nat>)
    requires n <= |id|
    ensures r.Some? ==> IsCut(id, r.value) && r.value <= n && id[..r.value] in idMap
    ensures forall k | (if r.Some? then r.value else 0) < k <= n :: !(IsCut(id, k) && id[..k] in idMap)
  {
    if n == 0 then None
    else if IsCut(id, n) && id[..n] in idMap then Some(n)
    else LongestCut(idMap, id, n - 1)
  }

  /** The id with its longest known prefix replaced, or the id itself. */
  function ToLocal(idMap: Option<IdMap>, id: string): string {
    if idMap == None then id else
    match LongestCut(idMap.value, id, |id|)
    case None => id
    case Some(n) => idMap.value[id[..n]] + id[n..]
  }

  function ToGlobal(idMap: Option<IdMap>, id: string): string {
    if idMap.Some? && id in idMap.value then idMap.value[id] else id
  }

  /** std::string::find_first_of for one character; None is npos. */
  function FindFirst(s: string, c: char): Option<nat> {
    if IndexOf(s, c) < |s| then Some(IndexOf(s, c)) else None
  }

  /** std::string::find_last_of for one character. */
  function FindLast(s: string, c: char): (r: Option<nat>)
    ensures r.Some? ==> r.value < |s| && s[r.value] == c
    ensures forall k | (if r.Some? then r.value + 1 else 0) <= k < |s| :: s[k] != c
  {
    if s == "" then None
    else if s[|s| - 1] == c then Some(|s| - 1)
    else FindLast(s[..|s| - 1], c)
  }

  /** Prefixes shorter than n that are still to be tried; nothing between n and the next one is a cut. */
  function NextFound(prefix: string): Option<nat> {
    if FindFirst(prefix, ':').Some? then FindFirst(prefix, ':') else FindLast(prefix, '/')
  }

  lemma IndexOfTake(s: string, c: char, n: nat)
    requires n <= |s|
    ensures IndexOf(s[..n], c) == if IndexOf(s, c) < n then IndexOf(s, c) else n
  {
    var i, j := IndexOf(s[..n], c), IndexOf(s, c);
    assert forall k | 0 <= k < j :: s[..j][k] != c;
    assert forall k | 0 <= k < i :: s[..n][..i][k] != c;
    assert j < n ==> s[..n][j] == c;
    assert i < n ==> s[i] == c;
  }

  lemma NextFoundSkipsNothing(id: string, n: nat)
    requires IsCut(id, n)
    ensures var next := NextFound(id[..n]);
            && (next.Some? ==> next.value < n && (next.value > 0 ==> IsCut(id, next.value)))
            && forall k: nat | (if next.Some? then next.value else 0) < k < n :: !IsCut(id, k)
  {
    IndexOfTake(id, ':', n);
    if FindFirst(id[..n], ':') == None {
      forall k: nat | (if FindLast(id[..n], '/').Some? then FindLast(id[..n], '/').value else 0) < k < n
        ensures !IsCut(id, k)
      {
        assert id[..n][k] != '/';
      }
    }
  }

  lemma {:induction false} SkipCuts(idMap: IdMap, id: string, low: nat, high: nat)
    requires low <= high <= |id|
    requires forall k: nat | low < k <= high :: !(IsCut(id, k) && id[..k] in idMap)
    ensures LongestCut(idMap, id, high) == LongestCut(idMap, id, low)
  {
    if low < high { SkipCuts(idMap, id, low, high - 1); }
  }

  /** The longest cut of the id that is a key. */
  ghost predicate IsLongestKnown(idMap: IdMap, id: string, n: nat) {
    && IsCut(id, n) && id[..n] in idMap
    && forall k: nat | n < k <= |id| :: !(IsCut(id, k) && id[..k] in idMap)
  }

  /** A longest known cut is replaced, and what follows it is kept. */
  lemma {:induction false} LocalIsReplaced(idMap: IdMap, id: string)
    ensures forall n: nat :: IsLongestKnown(idMap, id, n) ==> ToLocal(Some(idMap), id) == idMap[id[..n]] + id[n..]
    ensures (forall n: nat :: !(IsCut(id, n) && id[..n] in idMap)) ==> ToLocal(Some(idMap), id) == id
  {
    forall n: nat | IsLongestKnown(idMap, id, n) ensures LongestCut(idMap, id, |id|) == Some(n) {}
  }

  /** The loop; it terminates because the prefix shrinks. */
  method ReplaceLongest(idMap: IdMap, globalId: string) returns (r: string)
    ensures r == ToLocal(Some(idMap), globalId)
  {
    var found: Option<nat> := Some(|globalId|);
    var prefix := globalId;
    while found.Some? && found.value != 0
      invariant prefix <= globalId
      invariant found.Some? ==> found.value <= |prefix| && (found.value != 0 ==> IsCut(globalId, found.value))
      invariant LongestCut(idMap, globalId, |globalId|) ==
                LongestCut(idMap, globalId, if found.Some? then found.value else 0)
      decreases if found.Some? then found.value + 1 else 0
    {
      ghost var n := found.value;
      prefix := prefix[..found.value];
      assert prefix == globalId[..n];
      var remainder := globalId[found.value..];
      if prefix in idMap { return idMap[prefix] + remainder; }
      NextFoundSkipsNothing(globalId, n);
      found := FindFirst(prefix, ':');
      if found == None { found := FindLast(prefix, '/'); }
      SkipCuts(idMap, globalId, if found.Some? then found.value else 0, n);
    }
    return globalId;
  }

  /** The longest known cut is replaced by its value, and what follows it is kept; an id without a known cut, or
      without a map, stays as it is. */
  method UpdateIdToLocal(idMap: Option<IdMap>, globalId: string) returns (r: string)
    ensures r == ToLocal(idMap, globalId)
    ensures idMap == None ==> r == globalId
    ensures idMap.Some? ==> forall n: nat :: IsLongestKnown(idMap.value, globalId, n) ==>
              r == idMap.value[globalId[..n]] + globalId[n..]
    ensures idMap.Some? && (forall n: nat :: !(IsCut(globalId, n) && globalId[..n] in idMap.value)) ==> r == globalId
  {
    if idMap == None { return globalId; }
    r := ReplaceLongest(idMap.value, globalId);
    LocalIsReplaced(idMap.value, globalId);
  }

  method UpdateIdToGlobal(idMap: Option<IdMap>, localId: string) returns (r: string)
    ensures r == ToGlobal(idMap, localId)
    ensures r == if idMap.Some? && localId in idMap.value then idMap.value[localId] else localId
  {
    r := localId;
    if idMap.Some? {
      if localId in idMap.value { r := idMap.value[localId]; }
    }
  }

  /** A reverse of the device paths: for every value that some "/phys" key has, one such key. Which one depends
      on the order in which the hash map is walked. */
  ghost predicate IsReverse(reverse: IdMap, idMap: IdMap) {
    && (forall v | v in reverse :: reverse[v] in idMap && IsDevpath(reverse[v]) && idMap[reverse[v]] == v)
    && (forall k | k in idMap && IsDevpath(k) :: idMap[k] in reverse)
  }

  method GetReverseIdMap(idMap: IdMap) returns (reverse: IdMap)
    ensures IsReverse(reverse, idMap)
  {
    reverse := map[];
    var left := idMap.Keys;
    while left != {}
      invariant left <= idMap.Keys
      invariant forall v | v in reverse :: reverse[v] in idMap && IsDevpath(reverse[v]) && idMap[reverse[v]] == v
      invariant forall k | k in idMap && k !in left && IsDevpath(k) :: idMap[k] in reverse
      decreases left
    {
      var k := Pick(left);
      if "/phys" <= k { reverse := reverse[idMap[k] := k]; }
      left := left - {k};
    }
  }

  /** No other device path shares k's global id, and that id is not empty. */
  ghost predicate Reversible(idMap: IdMap, k: string)
    requires k in idMap
  {
    idMap[k] != "" && forall j | j in idMap && IsDevpath(j) && idMap[j] == idMap[k] :: j == k
  }

  lemma WholeIdFirst(idMap: IdMap, id: string)
    requires id != "" && id in idMap
    ensures ToLocal(Some(idMap), id) == idMap[id]
  {
    assert id[..|id|] == id && id[|id|..] == "";
    assert LongestCut(idMap, id, |id|) == Some(|id|);
  }

  /** Some reverse prefers the key k. */
  lemma ReversePreferring(idMap: IdMap, k: string) returns (reverse: IdMap)
    requires k in idMap && IsDevpath(k)
    ensures IsReverse(reverse, idMap) && reverse[idMap[k]] == k
  {
    var values := set j | j in idMap && IsDevpath(j) :: idMap[j];
    reverse := map v | v in values :: if v == idMap[k] then k else KeyFor(idMap, v);
    assert idMap[k] in values;
  }

  ghost function KeyFor(idMap: IdMap, v: string): (j: string)
    requires exists j :: j in idMap && IsDevpath(j) && idMap[j] == v
    ensures j in idMap && IsDevpath(j) && idMap[j] == v
  {
    var j :| j in idMap && IsDevpath(j) && idMap[j] == v;
    j
  }

  /** Going to the global id and back by a reverse map returns to a device path, whatever the order in which the
      reverse map was filled, exactly when the path is reversible. */
  lemma GlobalThenLocal(idMap: IdMap, k: string)
    requires k in idMap && IsDevpath(k)
    ensures (forall reverse :: IsReverse(reverse, idMap) ==>
              ToLocal(Some(reverse), ToGlobal(Some(idMap), k)) == k) <==> Reversible(idMap, k)
  {
    var v := idMap[k];
    if Reversible(idMap, k) {
      forall reverse | IsReverse(reverse, idMap)
        ensures ToLocal(Some(reverse), v) == k
      {
        WholeIdFirst(reverse, v);
      }
    } else if v == "" {
      var reverse := ReversePreferring(idMap, k);
      assert IsReverse(reverse, idMap) && ToLocal(Some(reverse), v) == "";
    } else {
      var j :| j in idMap && IsDevpath(j) && idMap[j] == v && j != k;
      var reverse := ReversePreferring(idMap, j);
      WholeIdFirst(reverse, v);
      assert IsReverse(reverse, idMap) && ToLocal(Some(reverse), v) == j;
    }
  }

  // ---- Identifiers ----

  datatype Identifier = Identifier(
    id: string, devpath: string, odataId: string, name: string, arena: string, type_: string)

  const SEPARATOR := '%'
  const COMPONENTS := 5

  function Fields(x: Identifier): (f: seq<string>)
    ensures |f| == COMPONENTS
  {
    [x.devpath, x.odataId, x.name, x.arena, x.type_]
  }

  /** absl::StrSplit with absl::MaxSplits. */
  function SplitMax(s: string, c: char, splits: nat): seq<string> {
    var i := IndexOf(s, c);
    if splits == 0 || i == |s| then [s] else [s[..i]] + SplitMax(s[i + 1..], c, splits - 1)
  }

  /** The global device path, and the id made of the five fields. */
  function Populated(x: Identifier, idMap: Option<IdMap>): Identifier {
    var y := x.(devpath := ToGlobal(idMap, x.devpath));
    y.(id := Join(Fields(y), SEPARATOR))
  }

  lemma {:induction false} FieldsJoined(x: Identifier)
    ensures Join(Fields(x), SEPARATOR) ==
            x.devpath + "%" + x.odataId + "%" + x.name + "%" + x.arena + "%" + x.type_
  {
    var a, b, c, d, e := x.devpath, x.odataId, x.name, x.arena, x.type_;
    assert [a, b, c, d, e][1..] == [b, c, d, e] && [b, c, d, e][1..] == [c, d, e] && [c, d, e][1..] == [d, e];
    assert [d, e][1..] == [e] && Join([e], '%') == e;
    assert Join([d, e], '%') == d + "%" + e;
    assert Join([c, d, e], '%') == c + "%" + (d + "%" + e);
    assert Join([b, c, d, e], '%') == b + "%" + (c + "%" + (d + "%" + e));
  }

  /** Only the device path and the id change. */
  method PopulateId(identifier: Identifier, idMap: Option<IdMap>) returns (r: Identifier)
    ensures r == Populated(identifier, idMap)
    ensures r == identifier.(devpath := r.devpath, id := r.id)
    ensures r.devpath == if idMap.Some? && identifier.devpath in idMap.value then idMap.value[identifier.devpath]
                         else identifier.devpath
    ensures r.id == r.devpath + "%" + r.odataId + "%" + r.name + "%" + r.arena + "%" + r.type_
  {
    FieldsJoined(Populated(identifier, idMap));
    var devpath := UpdateIdToGlobal(idMap, identifier.devpath);
    r := identifier.(devpath := devpath);
    r := r.(id := Join([r.devpath, r.odataId, r.name, r.arena, r.type_], SEPARATOR));
  }

  /** None is the InvalidArgument error. */
  function UnmarshalIdentifier(id: string): Option<Identifier> {
    var v := SplitMax(id, SEPARATOR, COMPONENTS);
    if |v| != COMPONENTS then None else Some(Identifier(id, v[0], v[1], v[2], v[3], v[4]))
  }

  lemma {:induction false} SplitMaxIsSplit(s: string, c: char, splits: nat)
    ensures |Split(s, c)| <= splits + 1 ==> SplitMax(s, c, splits) == Split(s, c)
    ensures |Split(s, c)| > splits + 1 ==> |SplitMax(s, c, splits)| == splits + 1
    decreases splits
  {
    var i := IndexOf(s, c);
    if splits > 0 && i < |s| { SplitMaxIsSplit(s[i + 1..], c, splits - 1); }
  }

  /** Accepts exactly the texts of five fields, that is with four separators. */
  lemma AcceptsFiveFields(id: string)
    ensures UnmarshalIdentifier(id).Some? <==> |Split(id, SEPARATOR)| == COMPONENTS
    ensures UnmarshalIdentifier(id).Some? ==> Fields(UnmarshalIdentifier(id).value) == Split(id, SEPARATOR)
  {
    SplitMaxIsSplit(id, SEPARATOR, COMPONENTS);
  }

  /** An accepted id is the join of its fields, none of which holds the separator. */
  lemma AcceptedIsRejoined(id: string)
    requires UnmarshalIdentifier(id).Some?
    ensures var x := UnmarshalIdentifier(id).value;
            x.id == id && Join(Fields(x), SEPARATOR) == id && forall k | 0 <= k < COMPONENTS :: SEPARATOR !in Fields(x)[k]
  {
    AcceptsFiveFields(id);
    JoinOfSplit(id, SEPARATOR);
  }

  /** A populated identifier is read back from its id exactly when no field holds the separator. */
  lemma IdentifierRoundTrip(identifier: Identifier, idMap: Option<IdMap>)
    ensures var x := Populated(identifier, idMap);
            UnmarshalIdentifier(x.id) == Some(x) <==> forall k | 0 <= k < COMPONENTS :: SEPARATOR !in Fields(x)[k]
  {
    var x := Populated(identifier, idMap);
    AcceptsFiveFields(x.id);
    if UnmarshalIdentifier(x.id) == Some(x) { AcceptedIsRejoined(x.id); }
    if forall k | 0 <= k < COMPONENTS :: SEPARATOR !in Fields(x)[k] {
      SplitOfJoin(Fields(x), SEPARATOR);
    }
  }
}
