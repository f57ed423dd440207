/** Routing rules: labels, the five kinds of rule and their match. */
module Rules {
  import opened Prelude
  import opened Addresses

  const I64_MAX := TWO_63 - 1

  type i64 = x: int | -TWO_63 <= x < TWO_63

  datatype BuiltInLabel = Direct | Proxy | Any

  datatype Label = BuiltIn(builtIn: BuiltInLabel) | Custom(name: string)

  datatype Connection = Connection(
    address: Ip, port: int, domain: Option<string>, regions: Option<seq<string>>)

  /** CIDR blocks and regular expressions enter as the predicates they denote. */
  datatype Condition =
    | GeoIp(codes: seq<string>)
    | Address(nets: Option<seq<Ip -> bool>>, ports: Option<seq<int>>)
    | Domain(domains: seq<string>)
    | DomainPattern(patterns: seq<string -> bool>)

  datatype Rule =
    | Plain(condition: Condition, negate: bool, labels: seq<Label>, rank: i64, tag: Option<string>)
    | Fallback(labels: seq<Label>, tag: Option<string>)

  function Priority(r: Rule): (p: int)
    ensures p <= I64_MAX
  {
    if r.Fallback? then I64_MAX else r.rank
  }

  predicate EndsWith(s: string, suffix: string) {
    |suffix| <= |s| && s[|s| - |suffix|..] == suffix
  }

  predicate DomainMatches(domain: string, pattern: string) {
    domain == pattern || (EndsWith(domain, pattern) && EndsWith(domain[..|domain| - |pattern|], "."))
  }

  /** None when the connection lacks what the condition looks at; negation does not apply then. */
  function Holds(condition: Condition, conn: Connection): Option<bool> {
    match condition
    case GeoIp(codes) =>
      if conn.regions.None? then None
      else Some(exists i :: 0 <= i < |codes| && codes[i] in conn.regions.value)
    case Address(nets, ports) =>
      Some((nets.None? || exists i :: 0 <= i < |nets.value| && nets.value[i](conn.address))
           && (ports.None? || conn.port in ports.value))
    case Domain(domains) =>
      if conn.domain.None? then None
      else Some(exists i :: 0 <= i < |domains| && DomainMatches(conn.domain.value, domains[i]))
    case DomainPattern(patterns) =>
      if conn.domain.None? then None
      else Some(exists i :: 0 <= i < |patterns| && patterns[i](conn.domain.value))
  }

  predicate PlainMatches(r: Rule, conn: Connection)
    requires r.Plain?
  {
    var holds := Holds(r.condition, conn);
    holds.Some? && holds.value != r.negate
  }

  function MatchRule(r: Rule, conn: Connection, anyMatched: bool): Option<seq<Label>> {
    match r
    case Plain(_, _, labels, _, _) => if PlainMatches(r, conn) then Some(labels) else None
    case Fallback(labels, _) => if anyMatched then None else Some(labels)
  }

  // ---- Domain matching is label-suffix matching ----

  /** Put one more character in front of a list of labels. */
  function Prepend(c: char, labels: seq<string>): (r: seq<string>)
    requires labels != []
    ensures r != []
  {
    if c == '.' then [""] + labels else [[c] + labels[0]] + labels[1..]
  }

  /** The dot-separated labels of a name; never empty. */
  function Split(s: string): (labels: seq<string>)
    ensures labels != []
  {
    if s == "" then [""] else Prepend(s[0], Split(s[1..]))
  }

  function Join(labels: seq<string>): string
    requires labels != []
  {
    if |labels| == 1 then labels[0] else labels[0] + "." + Join(labels[1..])
  }

  predicate IsSuffix<T(==)>(suffix: seq<T>, s: seq<T>) {
    |suffix| <= |s| && s[|s| - |suffix|..] == suffix
  }

  lemma JoinPrepend(c: char, labels: seq<string>)
    requires labels != []
    ensures Join(Prepend(c, labels)) == [c] + Join(labels)
  {
    var more := Prepend(c, labels);
    if c == '.' {
      assert more[1..] == labels;
    } else {
      assert more[1..] == labels[1..];
    }
  }

  lemma {:induction false} JoinSplit(s: string)
    ensures Join(Split(s)) == s
  {
    if s != "" {
      JoinSplit(s[1..]);
      JoinPrepend(s[0], Split(s[1..]));
    }
  }

  lemma PrependConcat(c: char, a: seq<string>, b: seq<string>)
    requires a != []
    ensures Prepend(c, a + b) == Prepend(c, a) + b
  {
  }

  lemma {:induction false} SplitAtDot(a: string, b: string)
    ensures Split(a + "." + b) == Split(a) + Split(b)
  {
    var s := a + "." + b;
    if a == "" {
      assert s[0] == '.' && s[1..] == b;
    } else {
      assert s[0] == a[0] && s[1..] == a[1..] + "." + b;
      SplitAtDot(a[1..], b);
      PrependConcat(a[0], Split(a[1..]), Split(b));
    }
  }

  lemma {:induction false} JoinConcat(a: seq<string>, b: seq<string>)
    requires a != [] && b != []
    ensures Join(a + b) == Join(a) + "." + Join(b)
  {
    if |a| == 1 {
      assert (a + b)[1..] == b;
    } else {
      assert (a + b)[1..] == a[1..] + b;
      JoinConcat(a[1..], b);
    }
  }

  lemma MatchGivesSuffix(domain: string, pattern: string)
    requires DomainMatches(domain, pattern)
    ensures IsSuffix(Split(pattern), Split(domain))
  {
    if domain != pattern {
      var front := domain[..|domain| - |pattern|];
      var name := front[..|front| - 1];
      assert front[|front| - 1..] == ".";
      assert front == name + ".";
      assert domain == name + "." + pattern;
      SplitAtDot(name, pattern);
    }
  }

  lemma BelowMatches(name: string, pattern: string)
    ensures DomainMatches(name + "." + pattern, pattern)
  {
    var domain := (name + ".") + pattern;
    assert domain[|domain| - |pattern|..] == pattern;
    assert domain[..|domain| - |pattern|] == name + ".";
    assert (name + ".")[|name|..] == ".";
  }

  /** Labels that end others are these, or stand behind a dot when joined. */
  lemma JoinTail(labels: seq<string>, tail: seq<string>) returns (name: string)
    requires labels != [] && tail != [] && IsSuffix(tail, labels)
    ensures Join(labels) == Join(tail) || Join(labels) == name + "." + Join(tail)
  {
    var front := labels[..|labels| - |tail|];
    assert labels == front + tail;
    if front == [] {
      assert labels == tail;
      name := "";
    } else {
      JoinConcat(front, tail);
      name := Join(front);
    }
  }

  lemma SuffixGivesMatch(domain: string, pattern: string)
    requires IsSuffix(Split(pattern), Split(domain))
    ensures DomainMatches(domain, pattern)
  {
    var name := JoinTail(Split(domain), Split(pattern));
    JoinSplit(domain);
    JoinSplit(pattern);
    BelowMatches(name, pattern);
  }

  /** The string test of the domain rule says exactly that the pattern's labels end the domain's. */
  lemma DomainMatchIsLabelSuffix(domain: string, pattern: string)
    ensures DomainMatches(domain, pattern) <==> IsSuffix(Split(pattern), Split(domain))
  {
    if DomainMatches(domain, pattern) {
      MatchGivesSuffix(domain, pattern);
    }
    if IsSuffix(Split(pattern), Split(domain)) {
      SuffixGivesMatch(domain, pattern);
    }
  }
}
