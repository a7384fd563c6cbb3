/**
  The flow router: which connections the configured flows allow, decided in two places that were written separately,
  once for incoming connections by address and once for dialling by name or address.
 */
module FlowRouter {
  import opened GoValues
  import opened Text
  import opened AddressPlan

  type TagList = seq<string>

  // ---------- Tags ----------

  /** `TagList.Contains` */
  method Contains(tags: TagList, tag: string) returns (found: bool)
    ensures found <==> tag in tags
  {
    for n := 0 to |tags|
      invariant tag !in tags[..n]
    {
      if tags[n] == tag {
        return true;
      }
    }
    return false;
  }

  /** `TagList.ContainsMatchingPrefix` */
  method ContainsMatchingPrefix(tags: TagList, prefix: string) returns (found: bool)
    ensures found <==> exists tag :: tag in tags && HasPrefix(tag, prefix)
  {
    for n := 0 to |tags|
      invariant forall tag :: tag in tags[..n] ==> !HasPrefix(tag, prefix)
    {
      if HasPrefix(tags[n], prefix) {
        return true;
      }
    }
    assert tags[..|tags|] == tags;
    return false;
  }

  /** `TagList.ContainsAny` */
  method ContainsAny(tags: TagList, other: TagList) returns (found: bool)
    ensures found <==> exists tag :: tag in other && tag in tags
  {
    for n := 0 to |other|
      invariant forall tag :: tag in other[..n] ==> tag !in tags
    {
      var known := Contains(tags, other[n]);
      if known {
        return true;
      }
    }
    assert other[..|other|] == other;
    return false;
  }

  // ---------- Flows ----------

  /** A flow allows connections to one service, by tag, of the instances that one tag names; `*` names all of a kind. */
  datatype Flow = Flow(tag: string, instance: string, service: string) {
    function ToString(): string {
      if instance == "" then tag + ":" + service else tag + "/" + instance + ":" + service
    }
  }

  datatype Parsed<T> = Parsed(value: T) | Malformed

  type Replace = Option<string -> Parsed<string>>

  /** The part after the slash, with a placeholder in braces replaced. */
  function Resolve(part: string, replace: Replace): Parsed<string> {
    if HasPrefix(part, "{") then
      if !HasSuffix(part, "}") || replace.None? then Malformed
      else
        assert part[..1][0] == '{' && part[|part| - 1..][0] == '}';
        replace.value(part[1..|part| - 1])
    else Parsed(part)
  }

  /** `ParseFlow` */
  function ParseFlow(flow: string, replace: Replace): Parsed<Flow> {
    var parts := Split(flow, ':');
    if |parts| != 2 then Malformed
    else
      var tagParts := Split(parts[0], '/');
      if |tagParts| != 2 then Malformed
      else match Resolve(tagParts[1], replace)
        case Malformed => Malformed
        case Parsed(instance) => Parsed(Flow(tagParts[0], instance, parts[1]))
  }

  /** `ParseTag` */
  function ParseTag(tag: string, replace: Replace): Parsed<string> {
    var parts := Split(tag, '/');
    if |parts| != 2 then Malformed
    else match Resolve(parts[1], replace)
      case Malformed => Malformed
      case Parsed(instance) => Parsed(parts[0] + "/" + instance)
  }

  /** `FlowList.Parse`: all flows in order, or nothing. */
  method ParseFlows(flows: seq<string>, replace: Replace) returns (parsed: Parsed<seq<Flow>>)
    ensures parsed == Malformed <==> exists n :: 0 <= n < |flows| && ParseFlow(flows[n], replace) == Malformed
    ensures parsed.Parsed? ==>
              && |parsed.value| == |flows|
              && forall n :: 0 <= n < |flows| ==> ParseFlow(flows[n], replace) == Parsed(parsed.value[n])
  {
    var found: seq<Flow> := [];
    for n := 0 to |flows|
      invariant |found| == n && forall j :: 0 <= j < n ==> ParseFlow(flows[j], replace) == Parsed(found[j])
    {
      var flow := ParseFlow(flows[n], replace);
      if flow.Malformed? {
        return Malformed;
      }
      found := found + [flow.value];
    }
    return Parsed(found);
  }

  lemma SplitPair(a: string, c: char, b: string)
    requires Free(a, c) && Free(b, c)
    ensures Split(a + [c] + b, c) == [a, b]
  {
    SplitAtFirst(a, c, b);
    SplitFree(b, c);
  }

  lemma JoinPair(s: string, c: char)
    requires |Split(s, c)| == 2
    ensures s == Split(s, c)[0] + [c] + Split(s, c)[1]
  {
    JoinOfSplit(s, c);
    var parts := Split(s, c);
    assert parts == [parts[0], parts[1]] && parts[1..] == [parts[1]];
  }

  // ---------- What is parsed ----------

  /** The text after a slash stands for itself, or in braces for what its name is replaced by. */
  ghost predicate StandsFor(part: string, replace: Replace, instance: string) {
    || (part == instance && (part == "" || part[0] != '{'))
    || exists name :: part == "{" + name + "}" && replace.Some? && replace.value(name) == Parsed(instance)
  }

  lemma ResolveExactly(part: string, replace: Replace, instance: string)
    ensures Resolve(part, replace) == Parsed(instance) <==> StandsFor(part, replace, instance)
  {
    if HasPrefix(part, "{") {
      assert part[..1][0] == '{';
      if HasSuffix(part, "}") {
        assert part[|part| - 1..][0] == '}';
        assert part == "{" + part[1..|part| - 1] + "}";
      }
      forall name | part == "{" + name + "}" ensures part[1..|part| - 1] == name && HasSuffix(part, "}") {
        assert part[|part| - 1..] == "}";
      }
    }
  }

  /** Exactly the texts `kind/part:service` are flows, for any part that stands for the instance. */
  lemma ParseFlowExactly(text: string, replace: Replace, flow: Flow)
    ensures ParseFlow(text, replace) == Parsed(flow) <==>
            && Free(flow.tag, ':') && Free(flow.tag, '/') && Free(flow.service, ':')
            && exists part :: text == flow.tag + "/" + part + ":" + flow.service
                 && Free(part, ':') && Free(part, '/') && StandsFor(part, replace, flow.instance)
  {
    if ParseFlow(text, replace) == Parsed(flow) {
      JoinPair(text, ':');
      JoinPair(Split(text, ':')[0], '/');
      var target, part := Split(text, ':')[0], Split(Split(text, ':')[0], '/')[1];
      PairFree(flow.tag, '/', part, ':');
      assert text == flow.tag + "/" + part + ":" + flow.service;
      ResolveExactly(part, replace, flow.instance);
    }
    forall part | text == flow.tag + "/" + part + ":" + flow.service && Free(flow.tag, ':') && Free(flow.tag, '/')
        && Free(flow.service, ':') && Free(part, ':') && Free(part, '/') && StandsFor(part, replace, flow.instance)
      ensures ParseFlow(text, replace) == Parsed(flow)
    {
      PairFree(flow.tag, '/', part, ':');
      SplitPair(flow.tag + "/" + part, ':', flow.service);
      SplitPair(flow.tag, '/', part);
      ResolveExactly(part, replace, flow.instance);
    }
  }

  lemma PairFree(a: string, c: char, b: string, d: char)
    requires c != d
    ensures Free(a + [c] + b, d) <==> Free(a, d) && Free(b, d)
  {
    var s := a + [c] + b;
    if Free(s, d) {
      forall i | 0 <= i < |a| ensures a[i] != d {
        assert s[i] == a[i];
      }
      forall i | 0 <= i < |b| ensures b[i] != d {
        assert s[|a| + 1 + i] == b[i];
      }
    }
  }

  /** Exactly the texts `kind/part` are tags, and they become `kind/instance`. */
  lemma ParseTagExactly(text: string, replace: Replace, tag: string)
    ensures ParseTag(text, replace) == Parsed(tag) <==>
            exists kind, part, instance ::
              && text == kind + "/" + part && tag == kind + "/" + instance
              && Free(kind, '/') && Free(part, '/') && StandsFor(part, replace, instance)
  {
    if ParseTag(text, replace) == Parsed(tag) {
      JoinPair(text, '/');
      var kind, part := Split(text, '/')[0], Split(text, '/')[1];
      var instance := Resolve(part, replace).value;
      ResolveExactly(part, replace, instance);
      assert text == kind + "/" + part && tag == kind + "/" + instance;
    }
    forall kind, part, instance | text == kind + "/" + part && tag == kind + "/" + instance
        && Free(kind, '/') && Free(part, '/') && StandsFor(part, replace, instance)
      ensures ParseTag(text, replace) == Parsed(tag)
    {
      SplitPair(kind, '/', part);
      ResolveExactly(part, replace, instance);
    }
  }

  /** A printed flow parses back to itself exactly when its instance is named, and not by a placeholder. */
  lemma FlowRoundTrip(flow: Flow)
    requires Free(flow.tag, ':') && Free(flow.tag, '/') && Free(flow.instance, ':') && Free(flow.instance, '/')
    requires Free(flow.service, ':')
    ensures ParseFlow(flow.ToString(), None) == Parsed(flow) <==> flow.instance != "" && flow.instance[0] != '{'
  {
    var target := if flow.instance == "" then flow.tag else flow.tag + "/" + flow.instance;
    SplitPair(target, ':', flow.service);
    assert flow.ToString() == target + [':'] + flow.service;
    if flow.instance == "" {
      SplitFree(flow.tag, '/');
    } else {
      SplitPair(flow.tag, '/', flow.instance);
      assert target == flow.tag + ['/'] + flow.instance;
      assert HasPrefix(flow.instance, "{") <==> flow.instance[0] == '{';
    }
  }

  /** A text that parses without placeholders is printed back unchanged, unless it leaves the instance empty. */
  lemma ParsedFlowPrints(text: string, flow: Flow)
    requires ParseFlow(text, None) == Parsed(flow)
    ensures flow.ToString() == text <==> flow.instance != ""
  {
    JoinPair(text, ':');
    JoinPair(Split(text, ':')[0], '/');
    var parts := Split(text, ':');
    assert text == flow.tag + "/" + flow.instance + ":" + flow.service;
    if flow.instance == "" {
      assert |flow.ToString()| < |text|;
    }
  }

  /**
    A second parse leaves a parsed tag alone exactly when the part after the slash has no further slash and resolves to
    itself: it is no placeholder, or one that is replaced by itself.
   */
  lemma ParseTagIdempotent(text: string, tag: string, replace: Replace)
    requires ParseTag(text, replace) == Parsed(tag)
    ensures var instance := Resolve(Split(text, '/')[1], replace).value;
            ParseTag(tag, replace) == Parsed(tag) <==>
            Free(instance, '/') && Resolve(instance, replace) == Parsed(instance)
  {
    var kind, instance := Split(text, '/')[0], Resolve(Split(text, '/')[1], replace).value;
    assert tag == kind + ['/'] + instance;
    SplitAtFirst(kind, '/', instance);
    if Free(instance, '/') {
      SplitFree(instance, '/');
      if ParseTag(tag, replace) == Parsed(tag) {
        SameTail(kind + "/", Resolve(instance, replace).value, instance);
      }
    } else if |Split(instance, '/')| == 1 {
      JoinOfSplit(instance, '/');
    }
  }

  lemma SameTail(a: string, b: string, c: string)
    requires a + b == a + c
    ensures b == c
  {
    assert (a + b)[|a|..] == b && (a + c)[|a|..] == c;
  }

  // ---------- Instances ----------

  datatype Service = Service(name: string, port: int, tags: TagList)

  datatype Instance = Instance(hostname: string, address: IPv4, tags: TagList, services: seq<Service>, flows: seq<Flow>)

  /** The tag of the flow names the target, alone or with all of its kind. */
  predicate TargetMatches(flow: Flow, target: Instance) {
    if flow.instance == "*" then exists tag :: tag in target.tags && HasPrefix(tag, flow.tag + "/")
    else flow.tag + "/" + flow.instance in target.tags
  }

  predicate Allows(flow: Flow, target: Instance, service: Service) {
    TargetMatches(flow, target) && flow.service in service.tags
  }

  /** What the router promises: some flow of the source matches, and the source has a tag at all. */
  predicate Allowed(source: Instance, target: Instance, service: Service) {
    source.tags != [] && exists flow :: flow in source.flows && Allows(flow, target, service)
  }

  /** A flow of the source names a tag of the service and a tag of the target: itself, or for a star all of its kind. */
  lemma AllowedExactly(source: Instance, target: Instance, service: Service)
    ensures Allowed(source, target, service) <==>
            source.tags != []
            && exists flow, rest ::
                 && flow in source.flows && flow.service in service.tags && flow.tag + "/" + rest in target.tags
                 && (rest == flow.instance || flow.instance == "*")
  {
    if Allowed(source, target, service) {
      var flow :| flow in source.flows && Allows(flow, target, service);
      if flow.instance == "*" {
        var tag :| tag in target.tags && HasPrefix(tag, flow.tag + "/");
        assert flow.tag + "/" + tag[|flow.tag| + 1..] == tag;
      } else {
        assert flow.tag + "/" + flow.instance in target.tags;
      }
    }
    forall flow, rest | flow in source.flows && flow.service in service.tags && flow.tag + "/" + rest in target.tags
        && (rest == flow.instance || flow.instance == "*")
      ensures Allows(flow, target, service)
    {
      assert HasPrefix(flow.tag + "/" + rest, flow.tag + "/");
    }
  }

  /** The check of one flow, as both decisions spell it out. */
  method MatchFlow(flow: Flow, source: Instance, target: Instance, service: Service) returns (matches: bool)
    ensures matches <==> source.tags != [] && Allows(flow, target, service)
  {
    var own := ContainsAny(source.tags, source.tags);
    assert own <==> source.tags != [] by {
      if source.tags != [] {
        assert source.tags[0] in source.tags;
      }
    }
    if !own {
      return false;
    }
    if flow.instance == "*" {
      var partial := ContainsMatchingPrefix(target.tags, flow.tag + "/");
      if !partial {
        return false;
      }
    } else {
      var named := Contains(target.tags, flow.tag + "/" + flow.instance);
      if !named {
        return false;
      }
    }
    matches := Contains(service.tags, flow.service);
  }

  /** `handleConnection` */
  method HandleConnection(source: Instance, target: Instance, service: Service) returns (accepted: bool)
    ensures accepted <==> Allowed(source, target, service)
    ensures accepted <==>
            source.tags != []
            && exists flow, rest ::
                 && flow in source.flows && flow.service in service.tags && flow.tag + "/" + rest in target.tags
                 && (rest == flow.instance || flow.instance == "*")
  {
    AllowedExactly(source, target, service);
    for n := 0 to |source.flows|
      invariant forall flow :: flow in source.flows[..n] ==> source.tags == [] || !Allows(flow, target, service)
    {
      var matches := MatchFlow(source.flows[n], source, target, service);
      if matches {
        return true;
      }
    }
    assert source.flows[..|source.flows|] == source.flows;
    return false;
  }

  /** `dialContext`: the router itself may dial anything. */
  method DialService(source: Option<Instance>, target: Instance, service: Service) returns (dialled: bool)
    ensures dialled <==> source.None? || Allowed(source.value, target, service)
    ensures dialled <==>
            || source.None?
            || (source.value.tags != []
                && exists flow, rest ::
                     && flow in source.value.flows && flow.service in service.tags
                     && flow.tag + "/" + rest in target.tags && (rest == flow.instance || flow.instance == "*"))
  {
    if source.None? {
      return true;
    }
    AllowedExactly(source.value, target, service);
    var flows := source.value.flows;
    for n := 0 to |flows|
      invariant forall flow :: flow in flows[..n] ==> source.value.tags == [] || !Allows(flow, target, service)
    {
      var matches := MatchFlow(flows[n], source.value, target, service);
      if matches {
        return true;
      }
    }
    assert flows[..|flows|] == flows;
    return false;
  }

  // ---------- The router ----------

  type Instances = map<string, Instance>

  /** A service of a registered instance. */
  datatype Place = Place(host: string, service: nat)

  ghost predicate Exists(instances: Instances, p: Place) {
    p.host in instances && p.service < |instances[p.host].services|
  }

  function TargetAt(instances: Instances, p: Place): Instance
    requires Exists(instances, p)
  {
    instances[p.host]
  }

  function ServiceAt(instances: Instances, p: Place): Service
    requires Exists(instances, p)
  {
    instances[p.host].services[p.service]
  }

  /** The place that an address and a port number mean. */
  ghost predicate Addressed(instances: Instances, ip: IPv4, port: int, p: Place) {
    Exists(instances, p) && TargetAt(instances, p).address == ip && ServiceAt(instances, p).port == port
  }

  /** A place that a dialled host and port text mean: either may be a name or a number. */
  ghost predicate Named(instances: Instances, host: string, port: string, p: Place) {
    && Exists(instances, p)
    && (TargetAt(instances, p).hostname == host || TargetAt(instances, p).address.ToString() == host)
    && ServiceNamed(ServiceAt(instances, p), port)
  }

  predicate ServiceNamed(service: Service, port: string) {
    PrintInt(service.port) == port || service.name == port
  }

  /** What `HandleConn` may do, whatever the order of the map: the connection is accepted at a place, or closed. */
  ghost predicate HandleResult(instances: Instances, source: Instance, ip: IPv4, port: int, result: Option<Place>) {
    match result
    case None => forall p :: Addressed(instances, ip, port, p) ==>
                   !Allowed(source, TargetAt(instances, p), ServiceAt(instances, p))
    case Some(p) =>
      && Addressed(instances, ip, port, p) && Allowed(source, TargetAt(instances, p), ServiceAt(instances, p))
      && forall i :: 0 <= i < p.service && Addressed(instances, ip, port, Place(p.host, i)) ==>
           !Allowed(source, TargetAt(instances, p), ServiceAt(instances, Place(p.host, i)))
  }

  datatype DialResult = Dialled(place: Place) | NoFlow | NoTarget | BadAddress | BadNetwork

  ghost predicate MayReach(instances: Instances, source: Option<Instance>, p: Place)
    requires Exists(instances, p)
  {
    source.None? || Allowed(source.value, TargetAt(instances, p), ServiceAt(instances, p))
  }

  /** The first service of its instance that the port text means; the dialler looks no further. */
  ghost predicate FirstNamed(instances: Instances, host: string, port: string, p: Place) {
    && Named(instances, host, port, p)
    && forall i :: 0 <= i < p.service ==> !Named(instances, host, port, Place(p.host, i))
  }

  /** What `DialContext` may do, whatever the order of the map. */
  ghost predicate DialsTo(instances: Instances, source: Option<Instance>, host: string, port: string,
      result: DialResult) {
    match result
    case Dialled(p) => FirstNamed(instances, host, port, p) && MayReach(instances, source, p)
    case NoFlow => exists p :: FirstNamed(instances, host, port, p) && !MayReach(instances, source, p)
    case NoTarget => forall p :: !Named(instances, host, port, p)
    case _ => false
  }

  class Router {
    var instances: Instances

    constructor ()
      ensures instances == map[]
    {
      instances := map[];
    }

    ghost predicate Valid()
      reads this
    {
      forall h :: h in instances ==> instances[h].hostname == h
    }

    /** `AddInstance`: a host name is taken once. */
    method AddInstance(instance: Instance) returns (added: bool)
      requires Valid()
      modifies this
      ensures Valid() && added == (instance.hostname !in old(instances))
      ensures instances == if added then old(instances)[instance.hostname := instance] else old(instances)
    {
      if instance.hostname in instances {
        return false;
      }
      instances := instances[instance.hostname := instance];
      return true;
    }

    /** The services of one target, in order: the first with this port that the source may reach. */
    method HandleAt(source: Instance, host: string, port: int) returns (service: Option<nat>)
      requires host in instances
      ensures match service
              case None =>
                forall i :: 0 <= i < |instances[host].services| && instances[host].services[i].port == port ==>
                  !Allowed(source, instances[host], instances[host].services[i])
              case Some(n) =>
                && n < |instances[host].services| && instances[host].services[n].port == port
                && Allowed(source, instances[host], instances[host].services[n])
                && forall i :: 0 <= i < n && instances[host].services[i].port == port ==>
                     !Allowed(source, instances[host], instances[host].services[i])
    {
      var target := instances[host];
      for n := 0 to |target.services|
        invariant forall i :: 0 <= i < n && target.services[i].port == port ==>
          !Allowed(source, target, target.services[i])
      {
        if target.services[n].port == port {
          var accepted := HandleConnection(source, target, target.services[n]);
          if accepted {
            return Some(n);
          }
        }
      }
      return None;
    }

    /** `HandleConn`: the instances are met in any order. */
    method HandleConn(source: Instance, ip: IPv4, port: int) returns (result: Option<Place>)
      ensures HandleResult(instances, source, ip, port, result)
    {
      var todo := instances.Keys;
      while todo != {}
        invariant todo <= instances.Keys
        invariant forall p :: Addressed(instances, ip, port, p) && p.host !in todo ==>
                    !Allowed(source, TargetAt(instances, p), ServiceAt(instances, p))
      {
        var host := Pick(todo);
        if instances[host].address == ip {
          var service := HandleAt(source, host, port);
          if service.Some? {
            return Some(Place(host, service.value));
          }
        }
        todo := todo - {host};
      }
      return None;
    }

    /** The services of one target, in order: the first that the port text means. */
    method NamedAt(host: string, port: string) returns (service: Option<nat>)
      requires host in instances
      ensures match service
              case None => forall i :: 0 <= i < |instances[host].services| ==>
                !ServiceNamed(instances[host].services[i], port)
              case Some(n) =>
                && n < |instances[host].services| && ServiceNamed(instances[host].services[n], port)
                && forall i :: 0 <= i < n ==> !ServiceNamed(instances[host].services[i], port)
    {
      var target := instances[host];
      for n := 0 to |target.services|
        invariant forall i :: 0 <= i < n ==> !ServiceNamed(target.services[i], port)
      {
        if PrintInt(target.services[n].port) == port || target.services[n].name == port {
          return Some(n);
        }
      }
      return None;
    }

    /** `DialContext`; `address` is what splitting the dialled address into host and port gives. */
    method DialContext(source: Option<Instance>, network: string, address: Option<(string, string)>)
        returns (result: DialResult)
      ensures if network != "tcp" then result == BadNetwork
              else if address.None? then result == BadAddress
              else DialsTo(instances, source, address.value.0, address.value.1, result)
    {
      if network != "tcp" {
        return BadNetwork;
      }
      if address.None? {
        return BadAddress;
      }
      var (host, port) := address.value;
      var todo := instances.Keys;
      while todo != {}
        invariant todo <= instances.Keys
        invariant forall p :: Named(instances, host, port, p) ==> p.host in todo
      {
        var h := Pick(todo);
        if instances[h].hostname == host || instances[h].address.ToString() == host {
          var service := NamedAt(h, port);
          if service.Some? {
            var place := Place(h, service.value);
            var dialled := DialService(source, instances[h], instances[h].services[service.value]);
            assert FirstNamed(instances, host, port, place);
            return if dialled then Dialled(place) else NoFlow;
          }
        }
        todo := todo - {h};
      }
      return NoTarget;
    }
  }

  // ---------- Ambiguous services ----------

  /** With one instance of this address: the first of its services with this port that is allowed, or none is. */
  lemma HandledExactly(instances: Instances, source: Instance, h: string, port: int, handled: Option<Place>)
    requires h in instances
    requires forall k :: k in instances && k != h ==> instances[k].address != instances[h].address
    requires HandleResult(instances, source, instances[h].address, port, handled)
    ensures var target := instances[h];
            match handled
            case Some(p) =>
              && p.host == h && p.service < |target.services| && target.services[p.service].port == port
              && Allowed(source, target, target.services[p.service])
              && forall i :: 0 <= i < p.service && target.services[i].port == port ==>
                   !Allowed(source, target, target.services[i])
            case None =>
              forall i :: 0 <= i < |target.services| && target.services[i].port == port ==>
                !Allowed(source, target, target.services[i])
  {
    var target, ip := instances[h], instances[h].address;
    if handled.Some? {
      var p := handled.value;
      assert Addressed(instances, ip, port, p);
      forall i | 0 <= i < p.service && target.services[i].port == port
        ensures !Allowed(source, target, target.services[i])
      {
        assert Addressed(instances, ip, port, Place(h, i));
      }
    } else {
      forall i | 0 <= i < |target.services| && target.services[i].port == port
        ensures !Allowed(source, target, target.services[i])
      {
        assert Addressed(instances, ip, port, Place(h, i));
      }
    }
  }

  /** With one instance of this name or address: the first of its services that the text means decides. */
  lemma DialledExactly(instances: Instances, source: Option<Instance>, h: string, n: nat, host: string, text: string,
                       dialled: DialResult)
    requires h in instances && (host == instances[h].hostname || host == instances[h].address.ToString())
    requires forall k :: k in instances && k != h ==>
               host != instances[k].hostname && host != instances[k].address.ToString()
    requires var services := instances[h].services;
             n < |services| && (services[n].name == text || PrintInt(services[n].port) == text)
             && forall i :: 0 <= i < n ==> services[i].name != text && PrintInt(services[i].port) != text
    requires DialsTo(instances, source, host, text, dialled)
    ensures dialled == if source.None? || Allowed(source.value, instances[h], instances[h].services[n])
                       then Dialled(Place(h, n)) else NoFlow
  {
    var p := Place(h, n);
    assert Named(instances, host, text, p);
    if dialled.Dialled? {
      OnlyFirstNamed(instances, h, n, host, text, dialled.place);
    } else if dialled.NoFlow? {
      var q :| FirstNamed(instances, host, text, q) && !MayReach(instances, source, q);
      OnlyFirstNamed(instances, h, n, host, text, q);
    }
  }

  lemma OnlyFirstNamed(instances: Instances, h: string, n: nat, host: string, text: string, p: Place)
    requires h in instances && n < |instances[h].services| && Named(instances, host, text, Place(h, n))
    requires forall k :: k in instances && k != h ==>
               host != instances[k].hostname && host != instances[k].address.ToString()
    requires forall i :: 0 <= i < n ==> !ServiceNamed(instances[h].services[i], text)
    requires FirstNamed(instances, host, text, p)
    ensures p == Place(h, n)
  {
    assert p.host == h;
  }

  // ---------- The two decisions agree ----------

  /** Addresses differ, the ports of one target differ, and no name looks like another's number. */
  ghost predicate Unambiguous(instances: Instances) {
    && (forall h :: h in instances ==> instances[h].hostname == h)
    && (forall h, k :: h in instances && k in instances && h != k ==>
          instances[h].address != instances[k].address && h != instances[k].address.ToString())
    && forall h :: h in instances ==> UnambiguousServices(instances[h].services)
  }

  ghost predicate UnambiguousServices(services: seq<Service>) {
    forall i, j :: 0 <= i < |services| && 0 <= j < |services| && i != j ==>
      services[i].port != services[j].port && services[i].name != PrintInt(services[j].port)
  }

  /** The dialled texts that mean the host of a place: its name and its address. */
  ghost predicate MeansHost(instances: Instances, host: string, p: Place)
    requires Exists(instances, p)
  {
    host == p.host || host == TargetAt(instances, p).address.ToString()
  }

  lemma OnlyOneAddressed(instances: Instances, ip: IPv4, port: int, p: Place, q: Place)
    requires Unambiguous(instances) && Addressed(instances, ip, port, p) && Addressed(instances, ip, port, q)
    ensures p == q
  {
  }

  /** The dialled port text is a port number, or the names of the target's services differ too. */
  ghost predicate ClearService(services: seq<Service>, text: string, port: int) {
    text == PrintInt(port) || forall i, j :: 0 <= i < j < |services| ==> services[i].name != services[j].name
  }

  lemma OnlyOneNamed(instances: Instances, ip: IPv4, port: int, host: string, text: string, p: Place, q: Place)
    requires Unambiguous(instances) && Addressed(instances, ip, port, p) && MeansHost(instances, host, p)
    requires ServiceNamed(ServiceAt(instances, p), text) && ClearService(instances[p.host].services, text, port)
    requires Named(instances, host, text, q)
    ensures p == q
  {
    if p.host != q.host {
      if host == TargetAt(instances, p).address.ToString() && host == TargetAt(instances, q).address.ToString() {
        ToStringInjective(TargetAt(instances, p).address, TargetAt(instances, q).address);
      }
      assert false;
    }
    OnlyOneService(instances[p.host].services, text, port, p.service, q.service);
  }

  lemma OnlyOneService(services: seq<Service>, text: string, port: int, i: nat, j: nat)
    requires UnambiguousServices(services) && ClearService(services, text, port) && i < |services| && j < |services|
    requires services[i].port == port && ServiceNamed(services[i], text) && ServiceNamed(services[j], text)
    ensures i == j
  {
    if PrintInt(services[j].port) == PrintInt(services[i].port) {
      PrintIntInjective(services[j].port, services[i].port);
    }
  }

  /**
    For an unambiguous set of instances the result of both decisions is determined, whatever the orders in which they
    meet the map, and they decide alike, whether the host is dialled by name or by address, and the service by name or
    by port number: it is reached exactly when it is allowed.
   */
  lemma RoutersAgree(instances: Instances, source: Instance, h: string, i: nat, host: string, text: string,
                     handled: Option<Place>, dialled: DialResult)
    requires Unambiguous(instances) && h in instances && i < |instances[h].services|
    requires host == h || host == instances[h].address.ToString()
    requires var services := instances[h].services;
             || text == PrintInt(services[i].port)
             || (text == services[i].name
                 && forall j, k :: 0 <= j < k < |services| ==> services[j].name != services[k].name)
    requires HandleResult(instances, source, instances[h].address, instances[h].services[i].port, handled)
    requires DialsTo(instances, Some(source), host, text, dialled)
    ensures var allowed := Allowed(source, instances[h], instances[h].services[i]);
            && handled == (if allowed then Some(Place(h, i)) else None)
            && dialled == if allowed then Dialled(Place(h, i)) else NoFlow
  {
    var p, ip, port := Place(h, i), instances[h].address, instances[h].services[i].port;
    assert Addressed(instances, ip, port, p);
    if handled.Some? {
      OnlyOneAddressed(instances, ip, port, p, handled.value);
    }
    assert Named(instances, host, text, p);
    if dialled.Dialled? {
      OnlyOneNamed(instances, ip, port, host, text, p, dialled.place);
    } else if dialled.NoFlow? {
      var q :| FirstNamed(instances, host, text, q) && !MayReach(instances, Some(source), q);
      OnlyOneNamed(instances, ip, port, host, text, p, q);
    }
  }

  /** However ambiguous names and numbers are, no instance reaches a service whose tags none of its flows names. */
  lemma NeverWithoutFlow(instances: Instances, source: Instance, ip: IPv4, port: int, host: string, text: string,
                         p: Place, handled: Option<Place>, dialled: DialResult)
    requires p.host in instances && p.service < |instances[p.host].services|
    requires forall flow :: flow in source.flows ==> flow.service !in instances[p.host].services[p.service].tags
    requires HandleResult(instances, source, ip, port, handled)
    requires DialsTo(instances, Some(source), host, text, dialled)
    ensures handled != Some(p) && dialled != Dialled(p)
  {
    AllowedExactly(source, instances[p.host], instances[p.host].services[p.service]);
  }

  /** When nothing is addressed, the connection is closed; when nothing is named, dialling finds no target. */
  lemma NothingThere(instances: Instances, source: Instance, ip: IPv4, port: int, handled: Option<Place>,
      dialled: DialResult)
    requires Unambiguous(instances)
    requires forall h, s :: h in instances && s in instances[h].services ==>
               instances[h].address != ip || s.port != port
    requires forall h, s :: h in instances && s in instances[h].services ==>
               h != ip.ToString() && s.name != PrintInt(port)
    requires HandleResult(instances, source, ip, port, handled)
    requires DialsTo(instances, Some(source), ip.ToString(), PrintInt(port), dialled)
    ensures handled == None && dialled == NoTarget
  {
    forall p ensures !Addressed(instances, ip, port, p) && !Named(instances, ip.ToString(), PrintInt(port), p) {
      if Exists(instances, p) {
        assert ServiceAt(instances, p) in instances[p.host].services;
        if Named(instances, ip.ToString(), PrintInt(port), p) {
          ToStringInjective(TargetAt(instances, p).address, ip);
          PrintIntInjective(ServiceAt(instances, p).port, port);
          assert false;
        }
      }
    }
  }

  /** Machines of a small enough game can be told apart by address. */
  lemma PlannedMachinesDiffer(instances: Instances, machine: map<string, Machine>, teams: nat, bots: bool, devices: nat)
    requires machine.Keys == instances.Keys && SmallEnough(teams, bots, devices)
    requires forall h :: h in instances ==>
               InPlan(teams, bots, devices, machine[h]) && instances[h].address == Address(machine[h])
    requires forall h, k :: h in instances && k in instances && h != k ==> machine[h] != machine[k]
    ensures forall h, k :: h in instances && k in instances && h != k ==> instances[h].address != instances[k].address
  {
    DifferentExactly(teams, bots, devices);
  }
}
