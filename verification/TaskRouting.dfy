/** The task routing setting: each route is stored as "host/model" text and read back by
    splitting at slashes. */
module TaskRouting {
  import opened Text

  datatype Route = Route(host: string, model: string, thinkMode: string)

  /** `s.split("/")` */
  function Split(s: string): (parts: seq<string>)
    ensures parts != []
  {
    var i := First(s, '/');
    if i == |s| then [s] else [s[..i]] + Split(s[i + 1..])
  }

  /** `parts.join("/")` */
  function Join(parts: seq<string>): string {
    if parts == [] then "" else if |parts| == 1 then parts[0] else parts[0] + ['/'] + Join(parts[1..])
  }

  lemma SplitPlain(s: string)
    requires '/' !in s
    ensures Split(s) == [s]
  {
    FirstAbsent(s, '/');
  }

  lemma SplitAtSlash(a: string, b: string)
    requires '/' !in a
    ensures Split(a + ['/'] + b) == [a] + Split(b)
  {
    FirstSeparator(a, b, '/');
  }

  lemma {:induction false} JoinCons(part: string, parts: seq<string>)
    requires parts != []
    ensures Join([part] + parts) == part + ['/'] + Join(parts)
  {
    assert ([part] + parts)[1..] == parts;
  }

  /** Joining undoes splitting. */
  lemma {:induction false} SplitJoin(s: string)
    ensures Join(Split(s)) == s
    decreases |s|
  {
    if '/' in s {
      var i := First(s, '/');
      FirstCuts(s, '/');
      SplitAtSlash(s[..i], s[i + 1..]);
      SplitJoin(s[i + 1..]);
      JoinCons(s[..i], Split(s[i + 1..]));
    } else {
      SplitPlain(s);
    }
  }

  function Encode(route: Route): string {
    if route.model != "" then route.host + ['/'] + route.model else route.host
  }

  function Decode(s: string): Route {
    var parts := Split(s);
    Route(parts[0], Join(parts[1..]), "medium")
  }

  lemma DecodePlain(s: string)
    requires '/' !in s
    ensures Decode(s) == Route(s, "", "medium")
  {
    SplitPlain(s);
  }

  /** The host is what stands before the first slash, the model all that follows it. */
  lemma DecodeAtFirstSlash(host: string, rest: string)
    requires '/' !in host
    ensures Decode(host + ['/'] + rest) == Route(host, rest, "medium")
  {
    SplitAtSlash(host, rest);
    SplitJoin(rest);
    assert ([host] + Split(rest))[1..] == Split(rest);
  }

  lemma DecodedHostIsPlain(s: string)
    ensures '/' !in Decode(s).host
  {
    if '/' in s {
      FirstCuts(s, '/');
      DecodeAtFirstSlash(s[..First(s, '/')], s[First(s, '/') + 1..]);
    } else {
      DecodePlain(s);
    }
  }

  /** Reading back a stored route gives its host and model, slashes in the model included, and
      think mode "medium", exactly when the host has no slash. */
  lemma DecodeEncodeIff(route: Route)
    ensures Decode(Encode(route)) == route.(thinkMode := "medium") <==> '/' !in route.host
  {
    if '/' in route.host {
      DecodedHostIsPlain(Encode(route));
    } else if route.model != "" {
      DecodeAtFirstSlash(route.host, route.model);
    } else {
      DecodePlain(route.host);
    }
  }

  /** Storing what was read gives the same text, exactly unless it is a host and one trailing
      slash. */
  lemma EncodeDecodeIff(s: string)
    ensures Encode(Decode(s)) == s <==> First(s, '/') != |s| - 1
  {
    if '/' in s {
      var i := First(s, '/');
      FirstCuts(s, '/');
      DecodeAtFirstSlash(s[..i], s[i + 1..]);
    } else {
      FirstAbsent(s, '/');
      DecodePlain(s);
    }
  }

  type Routing = map<string, Route>

  /** `handleRoutingChange`: the flat record that is saved. */
  method EncodeAll(routing: Routing) returns (flat: map<string, string>)
    ensures flat == map k | k in routing :: Encode(routing[k])
  {
    flat := map[];
    var keys := routing.Keys;
    while keys != {}
      invariant keys <= routing.Keys
      invariant flat == map k | k in routing && k !in keys :: Encode(routing[k])
      decreases keys
    {
      var k :| k in keys;
      var v := routing[k];
      flat := flat[k := if v.model != "" then v.host + ['/'] + v.model else v.host];
      keys := keys - {k};
    }
  }

  /** The effect that loads the saved record. */
  method DecodeAll(flat: map<string, string>) returns (routing: Routing)
    ensures routing == map k | k in flat :: Decode(flat[k])
  {
    routing := map[];
    var keys := flat.Keys;
    while keys != {}
      invariant keys <= flat.Keys
      invariant routing == map k | k in flat && k !in keys :: Decode(flat[k])
      decreases keys
    {
      var k :| k in keys;
      var parts := Split(flat[k]);
      routing := routing[k := Route(parts[0], Join(parts[1..]), "medium")];
      keys := keys - {k};
    }
  }

  /** A saved and reloaded routing table comes back with every think mode "medium", exactly
      when no host in it has a slash. */
  lemma RoutingComesBackIff(routing: Routing)
    ensures var flat := map k | k in routing :: Encode(routing[k]);
            (map k | k in flat :: Decode(flat[k])) == (map k | k in routing :: routing[k].(thinkMode := "medium"))
            <==> forall k | k in routing :: '/' !in routing[k].host
  {
    var flat := map k | k in routing :: Encode(routing[k]);
    var back := map k | k in flat :: Decode(flat[k]);
    var expected := map k | k in routing :: routing[k].(thinkMode := "medium");
    forall k | k in routing
      ensures back[k] == Decode(Encode(routing[k]))
      ensures back[k] == expected[k] <==> '/' !in routing[k].host
    {
      DecodeEncodeIff(routing[k]);
    }
    if back == expected {
      forall k | k in routing ensures '/' !in routing[k].host {
        assert back[k] == expected[k];
      }
    }
  }
}
