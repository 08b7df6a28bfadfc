/** The launcher: lowercases the configured names, re-keys the port and secret
    tables to lowercase, picks the secrets for each fetcher or writer process,
    and builds the aggregator's routes. Starting a process is represented by
    the launch descriptor it would receive. */
module Launcher {
  import opened Common
  import DataAggregator

  const AggregatorName: string := "dataaggregator"
  const IbKey: string := "ib"

  /** `get_lower_case_list_elements`. */
  function LowerAll(names: seq<string>): (r: seq<string>)
    ensures |r| == |names|
    ensures forall i :: 0 <= i < |names| ==> r[i] == Lower(names[i])
  {
    if names == [] then [] else [Lower(names[0])] + LowerAll(names[1..])
  }

  lemma LowerCharIdempotent(c: char)
    ensures LowerChar(LowerChar(c)) == LowerChar(c)
  {
  }

  /** Lowercasing a lowercased list changes nothing. */
  lemma LowerAllIdempotent(names: seq<string>)
    ensures LowerAll(LowerAll(names)) == LowerAll(names)
  {
    forall i | 0 <= i < |names|
      ensures Lower(Lower(names[i])) == Lower(names[i])
    {
      forall j | 0 <= j < |names[i]|
        ensures Lower(Lower(names[i]))[j] == Lower(names[i])[j]
      {
        LowerCharIdempotent(names[i][j]);
      }
    }
  }

  /** `{k.lower(): v for k, v in d.items()}` over a dict given by its items in
      insertion order. */
  function RekeyLower<V>(items: seq<(string, V)>): (m: map<string, V>)
    ensures m.Keys == set i | 0 <= i < |items| :: Lower(items[i].0)
  {
    if items == [] then map[]
    else
      var init := items[..|items| - 1];
      var m0 := RekeyLower(init);
      assert forall i :: 0 <= i < |init| ==> init[i] == items[i];
      m0[Lower(items[|items| - 1].0) := items[|items| - 1].1]
  }

  /** When two keys differ only in case, the later item wins. */
  lemma {:induction false} RekeyLowerLastWins<V>(items: seq<(string, V)>, i: nat)
    requires i < |items|
    requires forall j :: i < j < |items| ==> Lower(items[j].0) != Lower(items[i].0)
    ensures RekeyLower(items)[Lower(items[i].0)] == items[i].1
    decreases |items|
  {
    if i < |items| - 1 {
      var init := items[..|items| - 1];
      RekeyLowerLastWins(init, i);
    }
  }

  /** `ib_flex` and `ib_async` both report under `ib`. */
  function RouteName(k: string): string
  {
    if k == "ib_flex" || k == "ib_async" then IbKey else k
  }

  /** `{route(k): ports[k] for k in names if k in ports}` (`rename` selects whether
      the ib names collapse, as for fetchers, or are kept, as for writers). */
  function Routes(names: seq<string>, ports: map<string, int>, rename: bool): map<string, int>
  {
    if names == [] then map[]
    else
      var m := Routes(names[..|names| - 1], ports, rename);
      var k := names[|names| - 1];
      if k in ports then m[(if rename then RouteName(k) else k) := ports[k]] else m
  }

  /** A route exists exactly for the listed names that have a port, under their
      route name, and carries the port of one of them. */
  lemma {:induction false} RoutesKeys(names: seq<string>, ports: map<string, int>, rename: bool)
    ensures forall r :: r in Routes(names, ports, rename) <==>
      exists i :: 0 <= i < |names| && names[i] in ports && r == (if rename then RouteName(names[i]) else names[i])
    ensures forall r :: r in Routes(names, ports, rename) ==>
      exists i :: 0 <= i < |names| && names[i] in ports && Routes(names, ports, rename)[r] == ports[names[i]]
    decreases |names|
  {
    if names != [] {
      var init := names[..|names| - 1];
      RoutesKeys(init, ports, rename);
      assert forall i :: 0 <= i < |init| ==> init[i] == names[i];
    }
  }

  /** A listed name with a port has a route. */
  lemma {:induction false} RoutesHas(names: seq<string>, ports: map<string, int>, rename: bool, i: nat)
    requires i < |names| && names[i] in ports
    ensures (if rename then RouteName(names[i]) else names[i]) in Routes(names, ports, rename)
    decreases |names|
  {
    if i < |names| - 1 {
      RoutesHas(names[..|names| - 1], ports, rename, i);
    }
  }

  /** No fetcher route is ever keyed `ib_flex` or `ib_async`, and a name without
      a port never gets a route. */
  lemma FetcherRoutesCollapseIb(names: seq<string>, ports: map<string, int>, k: string)
    requires k in Routes(names, ports, true)
    ensures k != "ib_flex" && k != "ib_async"
    ensures k != IbKey ==> k in names && k in ports
  {
    RoutesKeys(names, ports, true);
  }

  datatype Config = Config(fetcherRoutes: map<string, int>, writerRoutes: map<string, int>,
                           aggregatorPort: int, aggregationInterval: int)

  /** The configuration `launch_data_aggregator` passes on; `Err` is the
      `KeyError` of a port table without the aggregator's own entry. */
  function BuildConfig(interval: int, exchanges: seq<string>, writers: seq<string>, ports: map<string, int>): Result<Config, string>
  {
    var fetchers := Routes(LowerAll(exchanges), ports, true);
    var sinks := Routes(LowerAll(writers), ports, false);
    if AggregatorName in ports then Ok(Config(fetchers, sinks, ports[AggregatorName], interval))
    else Err(AggregatorName)
  }

  /** The aggregator started from this configuration publishes only when the
      exchanges that reported are exactly the listed ones that have a port (with
      the two ib variants counted once as `ib`). */
  lemma AggregatorWaitsForConfiguredExchanges(interval: int, exchanges: seq<string>, writers: seq<string>,
                                             ports: map<string, int>, c: Config,
                                             lastSent: Option<Stamp>, records: map<string, DataAggregator.Record>,
                                             order: seq<string>, now: real, clock: DataAggregator.LocalClock)
    requires BuildConfig(interval, exchanges, writers, ports) == Ok(c)
    requires forall e :: e in records <==> e in order
    requires DataAggregator.CanSend(c.aggregationInterval, c.fetcherRoutes.Keys, lastSent, records, order, now, clock) == Ok(true)
    ensures forall e :: e in records <==>
      exists i :: 0 <= i < |exchanges| && Lower(exchanges[i]) in ports && e == RouteName(Lower(exchanges[i]))
  {
    var names := LowerAll(exchanges);
    var routes := Routes(names, ports, true);
    assert records.Keys == routes.Keys by {
      DataAggregator.ReadyIffSomeSourceStale(c.aggregationInterval, c.fetcherRoutes.Keys, lastSent, records, order, now, clock);
    }
    forall e
      ensures e in records <==>
        exists i :: 0 <= i < |exchanges| && Lower(exchanges[i]) in ports && e == RouteName(Lower(exchanges[i]))
    {
      if e in records {
        assert e in routes;
        RoutesKeys(names, ports, true);
        var i :| 0 <= i < |names| && names[i] in ports && e == RouteName(names[i]);
        assert names[i] == Lower(exchanges[i]);
      }
      if exists i :: 0 <= i < |exchanges| && Lower(exchanges[i]) in ports && e == RouteName(Lower(exchanges[i])) {
        var i :| 0 <= i < |exchanges| && Lower(exchanges[i]) in ports && e == RouteName(Lower(exchanges[i]));
        assert names[i] == Lower(exchanges[i]);
        RoutesHas(names, ports, true, i);
      }
    }
  }

  // ---------------------------------------------------------------------------
  // Secrets and process launch

  /** Any process whose name contains "ib" reads the `ib` secrets. */
  function SecretKey(name: string): (k: string)
    ensures Contains(Lower(name), IbKey) ==> k == IbKey
    ensures !Contains(Lower(name), IbKey) ==> k == name
  {
    if Contains(Lower(name), IbKey) then IbKey else name
  }

  datatype Secret = Stored(json: string) | Dummy

  /** The secret a process gets: its stored entry, dummy credentials when `csv`
      or `rsk` has none, otherwise the `KeyError` is raised again. */
  function SelectSecret(name: string, secrets: map<string, string>): Result<Secret, string>
  {
    var key := SecretKey(name);
    if key in secrets then Ok(Stored(secrets[key]))
    else if key == "csv" || key == "rsk" then Ok(Dummy)
    else Err(key)
  }

  datatype Launch = Launch(name: string, port: int, secret: Secret, aggregatorPort: int)

  /** The descriptor for one process, or the key whose lookup raised: the secret
      first, then the process's own port, then the aggregator's port. */
  function LaunchOne(name: string, secrets: map<string, string>, ports: map<string, int>): Result<Launch, string>
  {
    match SelectSecret(name, secrets)
    case Err(k) => Err(k)
    case Ok(s) =>
      if name !in ports then Err(name)
      else if AggregatorName !in ports then Err(AggregatorName)
      else Ok(Launch(name, ports[name], s, ports[AggregatorName]))
  }

  /** Processes started before the first failing name, and that failure. */
  function Plan(names: seq<string>, secrets: map<string, string>, ports: map<string, int>): (seq<Launch>, Option<string>)
  {
    if names == [] then ([], None)
    else match LaunchOne(names[0], secrets, ports)
      case Err(k) => ([], Some(k))
      case Ok(l) =>
        var rest := Plan(names[1..], secrets, ports);
        ([l] + rest.0, rest.1)
  }

  /** `launch_processes`: lowercases the names, then starts one process per name
      until a lookup raises. */
  method LaunchProcesses(names: seq<string>, secrets: map<string, string>, ports: map<string, int>)
    returns (launched: seq<Launch>, failure: Option<string>)
    ensures (launched, failure) == Plan(LowerAll(names), secrets, ports)
  {
    var lowered := LowerAll(names);
    launched := [];
    var i := 0;
    assert lowered[0..] == lowered;
    assert launched + Plan(lowered, secrets, ports).0 == Plan(lowered, secrets, ports).0;
    while i < |lowered|
      invariant 0 <= i <= |lowered|
      invariant Plan(lowered, secrets, ports) == (launched + Plan(lowered[i..], secrets, ports).0, Plan(lowered[i..], secrets, ports).1)
    {
      assert lowered[i..][1..] == lowered[i + 1..];
      var one := LaunchOne(lowered[i], secrets, ports);
      if one.Err? {
        assert lowered[i..][0] == lowered[i];
        assert launched + [] == launched;
        return launched, Some(one.error);
      }
      assert lowered[i..][0] == lowered[i];
      ghost var rest := Plan(lowered[i + 1..], secrets, ports);
      assert Plan(lowered[i..], secrets, ports) == ([one.value] + rest.0, rest.1);
      assert launched + ([one.value] + rest.0) == (launched + [one.value]) + rest.0;
      launched := launched + [one.value];
      i := i + 1;
    }
    assert launched + [] == launched;
    return launched, None;
  }

  /** Without a failure every name is started, in order, with its own port;
      dummy credentials go only to `csv` or `rsk` processes lacking secrets. */
  lemma {:induction false} PlanLaunchesEveryName(names: seq<string>, secrets: map<string, string>, ports: map<string, int>)
    requires Plan(names, secrets, ports).1 == None
    ensures |Plan(names, secrets, ports).0| == |names|
    ensures forall i :: 0 <= i < |names| ==>
      var l := Plan(names, secrets, ports).0[i];
      l.name == names[i] && names[i] in ports && l.port == ports[names[i]]
      && (l.secret == Dummy ==> SecretKey(names[i]) in {"csv", "rsk"} && SecretKey(names[i]) !in secrets)
    decreases |names|
  {
    if names != [] {
      PlanLaunchesEveryName(names[1..], secrets, ports);
    }
  }

  /** A failure names a missing key that is not excused: a secret key other than
      `csv`/`rsk`, or a port-table key. */
  lemma {:induction false} PlanFailureIsUnexcusedKey(names: seq<string>, secrets: map<string, string>, ports: map<string, int>)
    requires Plan(names, secrets, ports).1.Some?
    ensures var k := Plan(names, secrets, ports).1.value;
      (k !in secrets && k != "csv" && k != "rsk") || k !in ports
    decreases |names|
  {
    if names != [] && LaunchOne(names[0], secrets, ports).Ok? {
      PlanFailureIsUnexcusedKey(names[1..], secrets, ports);
    }
  }
}
