/** Printing and parsing the --mhi_config flag (service_flags.cc). */
module OverrideFlag {
  import opened Options
  import opened Text
  import opened EntityConfig

  // ---- Backend types and authentication methods ----

  function PrintBackend(backend: BackendType): string {
    match backend
    case Gsys => "gsys"
    case Redfish => "redfish"
    case Host => "host"
    case _ => "unknown"
  }

  function ParseBackend(text: string): Option<BackendType> {
    if text == "" || text == "unknown" then Some(Unknown)
    else if text == "host" then Some(Host)
    else if text == "fake" then Some(Fake)
    else if text == "redfish" then Some(Redfish)
    else if text == "gsys" then Some(Gsys)
    else None
  }

  /** The backends whose name is their own. */
  predicate HasOwnName(backend: BackendType) {
    backend == Unknown || backend == Gsys || backend == Redfish || backend == Host
  }

  /** A backend survives printing and parsing exactly when it has a name of its own; FAKE can be parsed but
      prints as "unknown". The accepted names are these and the empty one, which is "unknown". */
  lemma BackendRoundTrip(backend: BackendType)
    ensures ParseBackend("gsys") == Some(Gsys) && ParseBackend("redfish") == Some(Redfish)
    ensures ParseBackend("host") == Some(Host) && ParseBackend("") == ParseBackend("unknown") == Some(Unknown)
    ensures ParseBackend(PrintBackend(backend)).Some?
    ensures ParseBackend(PrintBackend(backend)) == Some(backend) <==> HasOwnName(backend)
    ensures ParseBackend("fake") == Some(Fake) && !HasOwnName(Fake)
  {
  }

  function ToLower(text: string): (r: string)
    ensures |r| == |text|
  {
    seq(|text|, k requires 0 <= k < |text| => if 'A' <= text[k] <= 'Z' then text[k] - 'A' + 'a' else text[k])
  }

  function ParseAuth(text: string): Option<AuthMethod> {
    var input := ToLower(text);
    if input == "" || input == "default" then Some(Default)
    else if input == "basic" then Some(Basic)
    else if input == "tls" then Some(Tls)
    else None
  }

  /** The word in any letter case; capital letters are 32 below small ones. */
  predicate Spells(text: string, word: string) {
    |text| == |word| && forall k | 0 <= k < |word| :: text[k] == word[k] || text[k] as int + 32 == word[k] as int
  }

  predicate IsWord(word: string) { forall k | 0 <= k < |word| :: 'a' <= word[k] <= 'z' }

  lemma LowerSpells(text: string, word: string)
    requires IsWord(word)
    ensures ToLower(text) == word <==> Spells(text, word)
  {
    var lower := ToLower(text);
    forall k | 0 <= k < |text| && k < |word|
      ensures lower[k] == word[k] <==> text[k] == word[k] || text[k] as int + 32 == word[k] as int
    {
    }
  }

  /** Each method is named by its word in any letter case, the default one also by nothing; nothing else is a method. */
  lemma AuthNames(text: string)
    ensures ParseAuth(text) == Some(Basic) <==> Spells(text, "basic")
    ensures ParseAuth(text) == Some(Tls) <==> Spells(text, "tls")
    ensures ParseAuth(text) == Some(Default) <==> text == "" || Spells(text, "default")
  {
    LowerSpells(text, "basic");
    LowerSpells(text, "tls");
    LowerSpells(text, "default");
  }

  // ---- The pattern (.+)://(.+):(\d+):?(.+)? ----

  const SCHEME := "://"

  predicate SchemeAt(text: string, a: int) { 0 <= a && a + 3 <= |text| && text[a..a + 3] == SCHEME }

  predicate PortAt(text: string, b: int) { 0 <= b && b + 1 < |text| && text[b] == ':' && IsDigit(text[b + 1]) }

  /** The first two groups end at a and b, the digits at d; what follows the digits is an optional colon and
      optional text, which any rest is. No group matches a newline. */
  predicate Splits(text: string, a: nat, b: nat, d: nat) {
    && '\n' !in text
    && 1 <= a && SchemeAt(text, a)
    && a + 4 <= b && PortAt(text, b)
    && b + 1 < d <= |text| && AllDigits(text[b + 1..d])
  }

  function LastPort(text: string, n: nat): (r: Option<nat>)
    requires n <= |text|
    ensures r.Some? ==> r.value < n && PortAt(text, r.value)
    ensures forall k | (if r.Some? then r.value + 1 else 0) <= k < n :: !PortAt(text, k)
  {
    if n == 0 then None else if PortAt(text, n - 1) then Some(n - 1) else LastPort(text, n - 1)
  }

  /** The last "://" that leaves at least one character before it, and starts before n. */
  function LastScheme(text: string, n: nat): (r: Option<nat>)
    requires n <= |text|
    ensures r.Some? ==> 1 <= r.value < n && SchemeAt(text, r.value)
    ensures forall k | (if r.Some? then r.value + 1 else 1) <= k < n :: !SchemeAt(text, k)
  {
    if n <= 1 then None else if SchemeAt(text, n - 1) then Some(n - 1) else LastScheme(text, n - 1)
  }

  function DigitsEnd(text: string, from: nat): (d: nat)
    requires from <= |text|
    ensures from <= d <= |text| && AllDigits(text[from..d])
    ensures d < |text| ==> !IsDigit(text[d])
    decreases |text| - from
  {
    if from < |text| && IsDigit(text[from]) then
      var d := DigitsEnd(text, from + 1);
      assert text[from..d] == [text[from]] + text[from + 1..d];
      d
    else from
  }

  /** Where the first three groups of a match end. */
  datatype Ends = Ends(a: nat, b: nat, d: nat)

  /** The greedy split of a whole text. */
  function Greedy(text: string): (r: Option<Ends>)
    ensures r.Some? ==> Splits(text, r.value.a, r.value.b, r.value.d)
  {
    var b := LastPort(text, |text|);
    if '\n' in text || b == None || b.value < 4 then None else
    var a := LastScheme(text, b.value - 3);
    if a == None then None else
    var d := DigitsEnd(text, b.value + 1);
    assert d > b.value + 1;
    Some(Ends(a.value, b.value, d))
  }

  /** A greedy matcher fails only when no split exists, and no split has a longer first group, or the same first
      and a longer second, or the same first two and more digits. */
  lemma GreedyIsFirst(text: string, a: nat, b: nat, d: nat)
    requires Splits(text, a, b, d)
    ensures Greedy(text).Some?
    ensures var e := Greedy(text).value;
            a < e.a || (a == e.a && (b < e.b || (b == e.b && d <= e.d)))
  {
    var last := LastPort(text, |text|).value;
    assert a < last - 3;
    var e := Greedy(text).value;
    if b == e.b { DigitsStop(text, b + 1, d, e.d); }
  }

  lemma DigitsStop(text: string, from: nat, d: nat, e: nat)
    requires from <= d <= |text| && from <= e <= |text| && AllDigits(text[from..d])
    requires e < |text| ==> !IsDigit(text[e])
    ensures d <= e
  {
    assert forall k | from <= k < d :: IsDigit(text[from..d][k - from]) && text[from..d][k - from] == text[k];
  }

  // ---- One override ----

  /** StrFormat's %d. */
  function PrintInt(n: int): string { if n < 0 then ['-'] + Decimal(0 - n) else Decimal(n) }

  function PrintOverride(o: NodeOverride): string {
    PrintBackend(o.backend) + SCHEME + o.targetAddress + ":" + PrintInt(o.port)
  }

  /** None is an error: no match, a port beyond the range of int, or an unknown backend or method. */
  function ParseOverride(text: string): Option<NodeOverride> {
    match Greedy(text)
    case None => None
    case Some(Ends(a, b, d)) => ParseGroups(text[..a], text[a + 3..b], text[b + 1..d], AuthGroup(text[d..]))
  }

  /** What the last group matches: the rest behind an optional colon. */
  function AuthGroup(rest: string): string { if rest != "" && rest[0] == ':' then rest[1..] else rest }

  function ParseGroups(backend: string, address: string, port: string, auth: string): Option<NodeOverride>
    requires AllDigits(port)
  {
    if DigitsValue(port) > INT_MAX then None else
    var type_ := ParseBackend(backend);
    var method_ := if auth == "" then Some(Default) else ParseAuth(auth);
    if type_ == None || method_ == None then None
    else Some(NodeOverride(type_.value, address, DigitsValue(port), method_.value, None, None))
  }

  /** A "://" with something behind it. */
  predicate HidesScheme(address: string) { exists p :: 0 <= p && p + 3 < |address| && SchemeAt(address, p) }

  predicate AddressSurvives(address: string) {
    address != "" && '\n' !in address && !HidesScheme(address)
  }

  /** What a caller can check of an override before printing it. */
  predicate Survives(o: NodeOverride) {
    && HasOwnName(o.backend) && AddressSurvives(o.targetAddress) && 0 <= o.port <= INT_MAX
    && o.auth == Default && o.cache == None && o.queries == None
  }

  // ---- Parsing what was printed ----

  /** The pieces of a printed override, by position. */
  lemma {:induction false} PrintedShape(o: NodeOverride)
    requires o.port >= 0
    ensures var t, n := PrintOverride(o), |PrintBackend(o.backend)|; var b := n + 3 + |o.targetAddress|;
            && b + 1 < |t| && t[..n] == PrintBackend(o.backend) && SchemeAt(t, n)
            && t[n + 3..b] == o.targetAddress && t[b] == ':' && t[b + 1..] == Decimal(o.port)
  {
    var name, address, digits := PrintBackend(o.backend), o.targetAddress, Decimal(o.port);
    var t := PrintOverride(o);
    assert t == name + SCHEME + address + ":" + digits;
    var n := |name|;
    var b := n + 3 + |address|;
    assert t[..n] == name && t[n..n + 3] == SCHEME && t[n + 3..b] == address && t[b + 1..] == digits;
  }

  /** Digits behind a colon, and no port behind them: the colon is the last port's, and its digits end there. */
  lemma {:induction false} PortFound(text: string, b: nat, d: nat)
    requires b + 1 < d <= |text| && text[b] == ':' && AllDigits(text[b + 1..d])
    requires (d < |text| ==> !IsDigit(text[d])) && forall k | d <= k < |text| :: !PortAt(text, k)
    ensures LastPort(text, |text|) == Some(b) && DigitsEnd(text, b + 1) == d
  {
    forall k | b < k < d ensures IsDigit(text[k]) { assert text[b + 1..d][k - b - 1] == text[k]; }
    assert PortAt(text, b);
    DigitsStop(text, b + 1, d, DigitsEnd(text, b + 1));
    DigitsStop(text, b + 1, DigitsEnd(text, b + 1), d);
  }

  lemma {:induction false} PrintedPort(o: NodeOverride)
    requires o.port >= 0
    ensures var t, b := PrintOverride(o), |PrintBackend(o.backend)| + 3 + |o.targetAddress|;
            LastPort(t, |t|) == Some(b) && DigitsEnd(t, b + 1) == |t|
  {
    PrintedShape(o);
    var t, b := PrintOverride(o), |PrintBackend(o.backend)| + 3 + |o.targetAddress|;
    assert t[b + 1..|t|] == t[b + 1..];
    PortFound(t, b, |t|);
  }

  /** A "://" of the printed text behind the name and well before the port lies in the address. */
  lemma {:induction false} SchemeInAddress(o: NodeOverride, a: nat)
    requires o.port >= 0
    requires var n := |PrintBackend(o.backend)|; n < a < n + |o.targetAddress| && SchemeAt(PrintOverride(o), a)
    ensures HidesScheme(o.targetAddress)
  {
    PrintedShape(o);
    var t, n := PrintOverride(o), |PrintBackend(o.backend)|;
    assert t[a..a + 3][0] == ':' && t[n..n + 3][1] == '/' && t[n..n + 3][2] == '/';
    assert a >= n + 3;
    var p := a - n - 3;
    assert o.targetAddress[p..p + 3] == t[a..a + 3];
    assert SchemeAt(o.targetAddress, p);
  }

  lemma SchemeFromAddress(o: NodeOverride, p: nat)
    requires o.port >= 0 && p + 3 < |o.targetAddress| && SchemeAt(o.targetAddress, p)
    ensures SchemeAt(PrintOverride(o), |PrintBackend(o.backend)| + 3 + p)
  {
    PrintedShape(o);
    var t, n := PrintOverride(o), |PrintBackend(o.backend)|;
    assert t[n + 3 + p..n + 3 + p + 3] == o.targetAddress[p..p + 3];
  }

  /** The first group is the backend's name unless the address hides a "://"; then it runs into the address. */
  lemma {:induction false} PrintedScheme(o: NodeOverride)
    requires o.port >= 0 && o.targetAddress != ""
    ensures var t, n := PrintOverride(o), |PrintBackend(o.backend)|; var b := n + 3 + |o.targetAddress|;
            b <= |t| && var a := LastScheme(t, b - 3);
            a.Some? && a.value >= n && (a.value == n <==> !HidesScheme(o.targetAddress))
  {
    PrintedShape(o);
    var t, n := PrintOverride(o), |PrintBackend(o.backend)|;
    var a := LastScheme(t, n + |o.targetAddress|);
    assert 1 <= n < n + |o.targetAddress|;
    if a.value > n { SchemeInAddress(o, a.value); }
    if HidesScheme(o.targetAddress) {
      var p :| 0 <= p && p + 3 < |o.targetAddress| && SchemeAt(o.targetAddress, p);
      SchemeFromAddress(o, p);
    }
  }

  lemma PlainName(backend: BackendType)
    ensures '\n' !in PrintBackend(backend) && ',' !in PrintBackend(backend) && |PrintBackend(backend)| >= 4
  {
  }

  lemma PlainDigits(n: nat, c: char)
    requires !IsDigit(c)
    ensures c !in Decimal(n)
  {
  }

  lemma PrintedNewline(o: NodeOverride)
    requires o.port >= 0
    ensures '\n' in PrintOverride(o) <==> '\n' in o.targetAddress
  {
    PlainName(o.backend);
    PlainDigits(o.port, '\n');
  }

  /** No newline, and the three searches that the greedy match makes end at n, b and d. */
  predicate SearchesEnd(t: string, n: nat, b: nat, d: nat) {
    && '\n' !in t && 4 <= b < |t| && LastPort(t, |t|) == Some(b)
    && LastScheme(t, b - 3) == Some(n) && DigitsEnd(t, b + 1) == d
  }

  lemma {:induction false} GreedyEnds(t: string, n: nat, b: nat, d: nat)
    requires SearchesEnd(t, n, b, d)
    ensures Greedy(t) == Some(Ends(n, b, d))
  {
  }

  lemma {:induction false} PrintedName(o: NodeOverride)
    requires 0 <= o.port && AddressSurvives(o.targetAddress)
    ensures var n := |PrintBackend(o.backend)|; LastScheme(PrintOverride(o), n + |o.targetAddress|) == Some(n)
  {
    PrintedScheme(o);
  }

  lemma {:induction false} PrintedSearches(o: NodeOverride)
    requires 0 <= o.port && AddressSurvives(o.targetAddress)
    ensures var n := |PrintBackend(o.backend)|; SearchesEnd(PrintOverride(o), n, n + 3 + |o.targetAddress|, |PrintOverride(o)|)
  {
    assert '\n' !in PrintOverride(o) by { PrintedNewline(o); }
    PlainName(o.backend);
    PrintedPort(o);
    PrintedName(o);
  }

  lemma {:induction false} GroupsParse(o: NodeOverride)
    requires Survives(o)
    ensures ParseGroups(PrintBackend(o.backend), o.targetAddress, Decimal(o.port), "") == Some(o)
  {
    DecimalRoundTrip(o.port);
    BackendRoundTrip(o.backend);
  }

  /** Parsing, once it is known where the searches end and what lies between. */
  lemma {:induction false} ParseAtEnds(text: string, n: nat, b: nat, d: nat, backend: string, address: string, port: string,
                                       auth: string)
    requires SearchesEnd(text, n, b, d) && n + 3 <= b && b + 1 <= d <= |text| && AllDigits(port)
    requires text[..n] == backend && text[n + 3..b] == address && text[b + 1..d] == port
    requires AuthGroup(text[d..]) == auth
    ensures ParseOverride(text) == ParseGroups(backend, address, port, auth)
  {
    GreedyEnds(text, n, b, d);
  }

  lemma {:induction false} PrintedGroups(o: NodeOverride)
    requires o.port >= 0
    ensures var t, n := PrintOverride(o), |PrintBackend(o.backend)|; var b := n + 3 + |o.targetAddress|;
            && b < |t| && t[..n] == PrintBackend(o.backend) && t[n + 3..b] == o.targetAddress
            && t[b + 1..|t|] == Decimal(o.port) && AuthGroup(t[|t|..]) == ""
  {
    PrintedShape(o);
    var t := PrintOverride(o);
    assert t[|t|..] == "";
  }

  lemma {:induction false} PrintedParses(o: NodeOverride)
    requires Survives(o)
    ensures ParseOverride(PrintOverride(o)) == Some(o)
  {
    var t, n := PrintOverride(o), |PrintBackend(o.backend)|;
    assert ParseOverride(t) == ParseGroups(PrintBackend(o.backend), o.targetAddress, Decimal(o.port), "") by {
      PrintedSearches(o);
      PrintedGroups(o);
      ParseAtEnds(t, n, n + 3 + |o.targetAddress|, |t|, PrintBackend(o.backend), o.targetAddress, Decimal(o.port), "");
    }
    GroupsParse(o);
  }

  /** What a successful parse says of its text. */
  lemma {:induction false} ParsedShape(t: string, e: Ends)
    requires ParseOverride(t).Some? && Greedy(t) == Some(e)
    ensures var o := ParseOverride(t).value;
            && o.targetAddress == t[e.a + 3..e.b] && o.targetAddress != "" && '\n' !in t
            && 0 <= o.port <= INT_MAX && o.cache == None && o.queries == None
            && ParseBackend(t[..e.a]) == Some(o.backend) && (e.d == |t| ==> o.auth == Default)
  {
    assert t[|t|..] == "";
  }

  /** The greedy match ends its groups where the searches end. */
  lemma {:induction false} GreedyFound(t: string)
    requires Greedy(t).Some?
    ensures var e := Greedy(t).value;
            LastPort(t, |t|) == Some(e.b) && LastScheme(t, e.b - 3) == Some(e.a) && DigitsEnd(t, e.b + 1) == e.d
  {
  }

  lemma {:induction false} ParsedSurvives(o: NodeOverride)
    requires ParseOverride(PrintOverride(o)) == Some(o)
    ensures Survives(o)
  {
    var t, n := PrintOverride(o), |PrintBackend(o.backend)|;
    ParsedShape(t, Greedy(t).value);
    GreedyFound(t);
    PrintedPort(o);
    PrintedScheme(o);
    assert '\n' !in o.targetAddress by { PrintedNewline(o); }
    assert t[..n] == PrintBackend(o.backend) by { PrintedShape(o); }
    BackendRoundTrip(o.backend);
  }

  /** One printed override is parsed back exactly when it survives. */
  lemma OverrideRoundTrip(o: NodeOverride)
    ensures ParseOverride(PrintOverride(o)) == Some(o) <==> Survives(o)
  {
    if Survives(o) { PrintedParses(o); }
    if ParseOverride(PrintOverride(o)) == Some(o) { ParsedSurvives(o); }
  }

  // ---- An authentication method behind the port ----

  /** What can stand behind the port and its colon without being taken for a port itself. */
  predicate PlainAuth(auth: string) { auth != "" && ':' !in auth && '\n' !in auth && !IsDigit(auth[0]) }

  /** What follows does not change the searches for a scheme that end before it. */
  lemma {:induction false} SameSchemes(t: string, text: string, n: nat)
    requires t <= text && n + 2 <= |t|
    ensures LastScheme(text, n) == LastScheme(t, n)
  {
    if n > 1 {
      SameSchemes(t, text, n - 1);
      assert text[n - 1..n + 2] == t[n - 1..n + 2];
    }
  }

  lemma AuthHoldsNoPort(t: string, auth: string)
    requires PlainAuth(auth)
    ensures var text := t + ":" + auth; forall k | |t| <= k < |text| :: !PortAt(text, k)
  {
    var text := t + ":" + auth;
    assert text[|t| + 1] == auth[0];
    forall k | |t| < k < |text| ensures text[k] != ':' { assert text[k] == auth[k - |t| - 1]; }
  }

  lemma SliceBefore(t: string, text: string, i: nat, j: nat)
    requires t <= text && i <= j <= |t|
    ensures text[i..j] == t[i..j]
  {
  }

  /** The searches end where they ended without the method. */
  lemma {:induction false} SearchesBeforeAuth(t: string, n: nat, b: nat, auth: string)
    requires SearchesEnd(t, n, b, |t|) && PlainAuth(auth)
    ensures SearchesEnd(t + ":" + auth, n, b, |t|)
  {
    var text := t + ":" + auth;
    assert t <= text && text[b] == t[b] == ':' && text[|t|] == ':';
    assert b + 1 < |t| && text[b + 1..|t|] == t[b + 1..|t|] by { SliceBefore(t, text, b + 1, |t|); }
    AuthHoldsNoPort(t, auth);
    PortFound(text, b, |t|);
    SameSchemes(t, text, b - 3);
  }

  lemma {:induction false} SlicesBeforeAuth(t: string, n: nat, b: nat, auth: string)
    requires n + 3 <= b < |t|
    ensures var text := t + ":" + auth;
            && text[..n] == t[..n] && text[n + 3..b] == t[n + 3..b] && text[b + 1..|t|] == t[b + 1..|t|]
            && AuthGroup(text[|t|..]) == auth
  {
    var text := t + ":" + auth;
    assert t <= text && text[|t|..] == ":" + auth;
    SliceBefore(t, text, 0, n);
    SliceBefore(t, text, n + 3, b);
    SliceBefore(t, text, b + 1, |t|);
    assert text[..n] == text[0..n] && t[..n] == t[0..n];
  }

  lemma {:induction false} GroupsWithAuth(o: NodeOverride, auth: string)
    requires Survives(o) && auth != ""
    ensures ParseGroups(PrintBackend(o.backend), o.targetAddress, Decimal(o.port), auth) ==
            match ParseAuth(auth) case None => None case Some(m) => Some(o.(auth := m))
  {
    DecimalRoundTrip(o.port);
    BackendRoundTrip(o.backend);
  }

  /** A text that parses to its groups parses, with a method behind it, to the same groups and that method. */
  lemma {:induction false} ParseBeforeAuth(t: string, n: nat, b: nat, backend: string, address: string, port: string,
                                           auth: string)
    requires SearchesEnd(t, n, b, |t|) && n + 3 <= b && PlainAuth(auth) && AllDigits(port)
    requires t[..n] == backend && t[n + 3..b] == address && t[b + 1..|t|] == port
    ensures ParseOverride(t + ":" + auth) == ParseGroups(backend, address, port, auth)
  {
    SearchesBeforeAuth(t, n, b, auth);
    SlicesBeforeAuth(t, n, b, auth);
    ParseAtEnds(t + ":" + auth, n, b, |t|, backend, address, port, auth);
  }

  lemma {:induction false} WithAuth(o: NodeOverride, auth: string)
    requires Survives(o) && PlainAuth(auth)
    ensures ParseOverride(PrintOverride(o) + ":" + auth) ==
            ParseGroups(PrintBackend(o.backend), o.targetAddress, Decimal(o.port), auth)
  {
    var t, n := PrintOverride(o), |PrintBackend(o.backend)|;
    PrintedSearches(o);
    PrintedGroups(o);
    ParseBeforeAuth(t, n, n + 3 + |o.targetAddress|, PrintBackend(o.backend), o.targetAddress, Decimal(o.port), auth);
  }

  lemma {:induction false} WrittenWithAuth(o: NodeOverride, auth: string)
    requires o.port >= 0
    ensures PrintBackend(o.backend) + "://" + o.targetAddress + ":" + Decimal(o.port) + ":" + auth ==
            PrintOverride(o) + ":" + auth
  {
  }

  /** The override written with its method behind the port: the method is the one that the text spells, whatever the
      letter case, and an override with any other text is an error. */
  lemma {:induction false} AuthIsRead(o: NodeOverride, auth: string)
    requires Survives(o) && PlainAuth(auth)
    ensures var r := ParseOverride(PrintBackend(o.backend) + "://" + o.targetAddress + ":" + Decimal(o.port) + ":" + auth);
            && (Spells(auth, "basic") ==> r == Some(o.(auth := Basic)))
            && (Spells(auth, "tls") ==> r == Some(o.(auth := Tls)))
            && (Spells(auth, "default") ==> r == Some(o))
            && (r.Some? ==> Spells(auth, "basic") || Spells(auth, "tls") || Spells(auth, "default"))
  {
    WrittenWithAuth(o, auth);
    assert ParseOverride(PrintOverride(o) + ":" + auth) ==
           match ParseAuth(auth) case None => None case Some(m) => Some(o.(auth := m)) by {
      WithAuth(o, auth);
      GroupsWithAuth(o, auth);
    }
    AuthNames(auth);
  }

  // ---- The list ----

  function PrintAll(list: seq<NodeOverride>): (texts: seq<string>)
    ensures |texts| == |list| && forall k | 0 <= k < |list| :: texts[k] == PrintOverride(list[k])
  {
    seq(|list|, k requires 0 <= k < |list| => PrintOverride(list[k]))
  }

  /** What each piece between commas says, if it is well formed. */
  function ReadPieces(pieces: seq<string>): (read: seq<Option<NodeOverride>>)
    ensures |read| == |pieces| && forall k | 0 <= k < |pieces| :: read[k] == ParseOverride(pieces[k])
  {
    seq(|pieces|, k requires 0 <= k < |pieces| => ParseOverride(pieces[k]))
  }

  /** The overrides before the first bad piece, and whether there is no bad piece. */
  function UpToError(read: seq<Option<NodeOverride>>): (seq<NodeOverride>, bool) {
    if read == [] then ([], true)
    else if read[0] == None then ([], false)
    else ([read[0].value] + UpToError(read[1..]).0, UpToError(read[1..]).1)
  }

  function ParseList(text: string): (seq<NodeOverride>, bool) {
    if text == "" then ([], true) else UpToError(ReadPieces(Split(text, ',')))
  }

  /** AbslUnparseFlag. */
  method UnparseFlag(overrides: seq<NodeOverride>) returns (text: string)
    ensures text == Join(PrintAll(overrides), ',')
  {
    var texts: seq<string> := [];
    for k := 0 to |overrides|
      invariant |texts| == k && forall j | 0 <= j < k :: texts[j] == PrintAll(overrides)[j]
    {
      texts := texts + [PrintOverride(overrides[k])];
    }
    assert texts == PrintAll(overrides);
    return Join(texts, ',');
  }

  /** One more piece: `before` has been read, and `whole` is what reading to the end gives. */
  lemma UpToErrorStep(read: seq<Option<NodeOverride>>, k: nat, before: seq<NodeOverride>, whole: (seq<NodeOverride>, bool))
    requires k < |read| && before + UpToError(read[k..]).0 == whole.0 && UpToError(read[k..]).1 == whole.1
    ensures read[k] == None ==> whole == (before, false)
    ensures read[k].Some? ==>
              before + [read[k].value] + UpToError(read[k + 1..]).0 == whole.0 && UpToError(read[k + 1..]).1 == whole.1
  {
    assert read[k..][1..] == read[k + 1..];
    if read[k].Some? {
      var one, rest := [read[k].value], UpToError(read[k + 1..]).0;
      assert before + (one + rest) == before + one + rest;
    } else {
      assert before + [] == before;
    }
  }

  /** AbslParseFlag: appends to the vector it is given, up to the first bad piece. */
  method ParseFlag(text: string, overrides: seq<NodeOverride>) returns (r: seq<NodeOverride>, ok: bool)
    ensures r == overrides + ParseList(text).0
    ensures ok == ParseList(text).1
  {
    if text == "" { return overrides, true; }
    r := overrides;
    var pieces := Split(text, ',');
    ghost var read, whole := ReadPieces(pieces), ParseList(text);
    assert read[0..] == read;
    for k := 0 to |pieces|
      invariant r + UpToError(read[k..]).0 == overrides + whole.0 && UpToError(read[k..]).1 == whole.1
    {
      UpToErrorStep(read, k, r, (overrides + whole.0, whole.1));
      var override := ParseOverride(pieces[k]);
      if override == None { return r, false; }
      r := r + [override.value];
    }
    return r, true;
  }

  lemma {:induction false} NoErrors(read: seq<Option<NodeOverride>>, list: seq<NodeOverride>)
    ensures UpToError(read) == (list, true) <==>
            |read| == |list| && forall k | 0 <= k < |list| :: read[k] == Some(list[k])
  {
    if read != [] && list != [] {
      NoErrors(read[1..], list[1..]);
      assert list == [list[0]] + list[1..] && read == [read[0]] + read[1..];
      if UpToError(read) == (list, true) {
        assert list[1..] == UpToError(read[1..]).0;
        forall k | 0 <= k < |list| ensures read[k] == Some(list[k]) {
          if k > 0 { assert read[1..][k - 1] == Some(list[1..][k - 1]); }
        }
      }
    }
  }

  lemma PrintedComma(o: NodeOverride)
    ensures ',' in PrintOverride(o) <==> ',' in o.targetAddress
  {
    PlainName(o.backend);
    PlainDigits(if o.port < 0 then 0 - o.port else o.port, ',');
  }

  /** A printed list is parsed back, from an empty vector, exactly when every override survives and no address
      holds a comma. */
  lemma ListRoundTrip(list: seq<NodeOverride>)
    ensures ParseList(Join(PrintAll(list), ',')) == (list, true) <==>
            forall k | 0 <= k < |list| :: Survives(list[k]) && ',' !in list[k].targetAddress
  {
    var texts := PrintAll(list);
    if list == [] { return; }
    PrintedNotEmpty(texts, list);
    var pieces := Split(Join(texts, ','), ',');
    NoErrors(ReadPieces(pieces), list);
    PiecesOfJoin(texts, ',');
    if |pieces| == |list| || forall k | 0 <= k < |list| :: ',' !in list[k].targetAddress {
      forall k | 0 <= k < |list|
        ensures ',' !in list[k].targetAddress && ',' !in texts[k]
      {
        PrintedComma(list[k]);
      }
      SplitOfJoin(texts, ',');
      forall k | 0 <= k < |list|
        ensures ParseOverride(pieces[k]) == Some(list[k]) <==> Survives(list[k])
      {
        OverrideRoundTrip(list[k]);
      }
    }
  }

  lemma PrintedNotEmpty(texts: seq<string>, list: seq<NodeOverride>)
    requires list != [] && texts == PrintAll(list)
    ensures Join(texts, ',') != ""
  {
    PlainName(list[0].backend);
    assert texts[0] == PrintOverride(list[0]);
  }
}
