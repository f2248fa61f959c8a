/**
 * The `getcollections` command of the ZooKeeper command-line tool: it walks the cluster
 * state (collections, their active slices, every replica of those slices) and writes one
 * core descriptor line per replica, either for every replica with the replica's host in
 * front, or only for the replicas on one given host.
 */
module ZkCliCollections {
  import opened Wrappers
  import opened Sequences

  datatype SliceState = Active | Inactive | Construction | Recovery

  /** A replica: its name, the node it lives on ("host:port_context") and its properties
      ("core", "shard", "collection", "state", ...). */
  datatype Replica = Replica(name: string, nodeName: string, props: map<string, string>)
  datatype Slice = Slice(name: string, state: SliceState, replicas: seq<Replica>)
  datatype DocCollection = DocCollection(name: string, slices: seq<Slice>)

  /** A cluster state snapshot, its collections in the order they are listed. */
  type ClusterState = seq<DocCollection>

  /** The slices of a collection that are active, in order. */
  function ActiveSlices(slices: seq<Slice>): seq<Slice> {
    if slices == [] then []
    else ActiveSlices(slices[..|slices| - 1])
         + (if slices[|slices| - 1].state == Active then [slices[|slices| - 1]] else [])
  }

  // ---- The host of a node name: `nodeName.split(":")[0]` ----

  /** The characters of `s` before its first ':'. */
  function BeforeColon(s: string): (r: string)
    ensures |r| <= |s| && r == s[..|r|] && ':' !in r
    ensures |r| < |s| ==> s[|r|] == ':'
  {
    if s == [] || s[0] == ':' then []
    else
      var rest := BeforeColon(s[1..]);
      assert s[..|rest| + 1] == [s[0]] + s[1..][..|rest|];
      [s[0]] + rest
  }

  predicate AllColons(s: string) {
    forall i | 0 <= i < |s| :: s[i] == ':'
  }

  /** `nodeName.split(":")[0]`. Splitting drops trailing empty pieces, so a non-empty name
      made only of ':' splits into no pieces at all and reading piece 0 throws (`None`);
      otherwise piece 0 is the text before the first ':'. */
  function Host(nodeName: string): Option<string> {
    if nodeName != "" && AllColons(nodeName) then None else Some(BeforeColon(nodeName))
  }

  /** The host is missing exactly for a non-empty name of colons only; otherwise it is the
      longest prefix of the node name without a ':', which is followed by a ':' or ends the
      name. */
  lemma HostIsTextBeforeColon(nodeName: string)
    ensures Host(nodeName).None? <==> nodeName != "" && AllColons(nodeName)
    ensures Host(nodeName).Some? ==>
      var host := Host(nodeName).value;
      && |host| <= |nodeName| && host == nodeName[..|host|] && ':' !in host
      && (|host| < |nodeName| ==> nodeName[|host|] == ':')
  {
  }

  // ---- The descriptor line ----

  /** `replica.getStr(key)` as printed with %s: a missing property prints as "null". */
  function Prop(r: Replica, key: string): string {
    if key in r.props then r.props[key] else "null"
  }

  datatype CoreDescriptor = CoreDescriptor(shard: string, instanceDir: string, name: string, collection: string)

  /** The descriptor written for a replica: named after its core, with the core name and a
      '/' as instance directory, and the replica's own shard and collection. */
  function Descriptor(r: Replica): (d: CoreDescriptor)
    ensures d.name == Prop(r, "core") && d.instanceDir == d.name + "/"
    ensures d.shard == Prop(r, "shard") && d.collection == Prop(r, "collection")
  {
    var core := Prop(r, "core");
    CoreDescriptor(Prop(r, "shard"), core + "/", core, Prop(r, "collection"))
  }

  /** The `<core .../>` line of a descriptor. */
  function Render(d: CoreDescriptor): string {
    "    <core schema=\"schema.xml\" loadOnStartup=\"true\" shard=\"" + d.shard
    + "\" instanceDir=\"" + d.instanceDir + "\" transient=\"false\" name=\"" + d.name
    + "\" config=\"solrconfig.xml\" collection=\"" + d.collection + "\"/>\n"
  }

  // ---- The walk and what it writes ----

  /** The replicas of the slices, in order. */
  function SliceReplicas(slices: seq<Slice>): seq<Replica> {
    if slices == [] then [] else SliceReplicas(slices[..|slices| - 1]) + slices[|slices| - 1].replicas
  }

  /** The replicas visited: for each collection, every replica of each active slice. */
  function Walk(cs: ClusterState): seq<Replica> {
    if cs == [] then [] else Walk(cs[..|cs| - 1]) + SliceReplicas(ActiveSlices(cs[|cs| - 1].slices))
  }

  /** What the command writes for one replica on `host`. */
  function ReplicaLines(r: Replica, host: string, hostname: Option<string>): seq<string> {
    if hostname.None? then [host + "\t" + Line(r)]
    else if hostname.value == host then [Line(r)]
    else []
  }

  /** The lines written, and whether the walk got to its end. */
  datatype Emission = Emission(lines: seq<string>, complete: bool)

  /** The lines written for the replicas of a walk, stopping at the first replica whose host
      cannot be read. */
  function Emit(walk: seq<Replica>, hostname: Option<string>): Emission {
    if walk == [] then Emission([], true)
    else
      var before := Emit(walk[..|walk| - 1], hostname);
      var r := walk[|walk| - 1];
      if !before.complete then before
      else match Host(r.nodeName)
        case None => Emission(before.lines, false)
        case Some(host) => Emission(before.lines + ReplicaLines(r, host, hostname), true)
  }

  /** One step of the emission: the replica after a complete prefix. */
  lemma EmitStep(walk: seq<Replica>, r: Replica, hostname: Option<string>)
    ensures Emit(walk + [r], hostname)
         == if !Emit(walk, hostname).complete then Emit(walk, hostname)
            else match Host(r.nodeName)
              case None => Emission(Emit(walk, hostname).lines, false)
              case Some(host) => Emission(Emit(walk, hostname).lines + ReplicaLines(r, host, hostname), true)
  {
    assert (walk + [r])[..|walk + [r]| - 1] == walk;
  }

  /** The walk of `getcollections`: the outer loop over the collections. The two inner
      loops, over the active slices and over their replicas, are the two methods below. A
      node name whose host cannot be read ends the walk, as the exception does. */
  method GetCollections(cs: ClusterState, hostname: Option<string>) returns (lines: seq<string>, complete: bool)
    ensures Emission(lines, complete) == Emit(Walk(cs), hostname)
  {
    lines := [];
    var i := 0;
    while i < |cs|
      invariant 0 <= i <= |cs|
      invariant Emit(Walk(cs[..i]), hostname) == Emission(lines, true)
    {
      var slices := ActiveSlices(cs[i].slices);
      lines, complete := EmitSlices(Walk(cs[..i]), slices, hostname, lines);
      WalkAt(cs, i);
      if !complete {
        EmitStopsAtFailure(Walk(cs[..i]) + SliceReplicas(slices), Walk(cs[i + 1..]), hostname);
        return;
      }
      assert cs[..i + 1][..i] == cs[..i];
      i := i + 1;
    }
    assert cs[..i] == cs;
    complete := true;
  }

  /** The loop over the active slices of one collection; `visited` is what the walk has
      visited before. */
  method EmitSlices(ghost visited: seq<Replica>, slices: seq<Slice>, hostname: Option<string>, linesBefore: seq<string>)
    returns (lines: seq<string>, complete: bool)
    requires Emit(visited, hostname) == Emission(linesBefore, true)
    ensures Emission(lines, complete) == Emit(visited + SliceReplicas(slices), hostname)
  {
    lines := linesBefore;
    var j := 0;
    assert visited + SliceReplicas(slices[..0]) == visited by { assert slices[..0] == []; }
    while j < |slices|
      invariant 0 <= j <= |slices|
      invariant Emit(visited + SliceReplicas(slices[..j]), hostname) == Emission(lines, true)
    {
      lines, complete := EmitReplicas(visited + SliceReplicas(slices[..j]), slices[j].replicas, hostname, lines);
      SliceReplicasAt(slices, j);
      Assoc3(visited, SliceReplicas(slices[..j]), slices[j].replicas);
      if !complete {
        Assoc3(visited, SliceReplicas(slices[..j]) + slices[j].replicas, SliceReplicas(slices[j + 1..]));
        EmitStopsAtFailure(visited + SliceReplicas(slices[..j]) + slices[j].replicas, SliceReplicas(slices[j + 1..]), hostname);
        return;
      }
      assert slices[..j + 1][..j] == slices[..j];
      assert SliceReplicas(slices[..j + 1]) == SliceReplicas(slices[..j]) + slices[j].replicas;
      j := j + 1;
    }
    assert slices[..j] == slices;
    complete := true;
  }

  /** The loop over the replicas of one slice: the host is read from every replica's node
      name; without a host name every replica is written with its host in front, with one
      only the replicas on that host are written. */
  method EmitReplicas(ghost visited: seq<Replica>, replicas: seq<Replica>, hostname: Option<string>, linesBefore: seq<string>)
    returns (lines: seq<string>, complete: bool)
    requires Emit(visited, hostname) == Emission(linesBefore, true)
    ensures Emission(lines, complete) == Emit(visited + replicas, hostname)
  {
    lines := linesBefore;
    var k := 0;
    assert visited + replicas[..0] == visited by { assert replicas[..0] == []; }
    while k < |replicas|
      invariant 0 <= k <= |replicas|
      invariant Emit(visited + replicas[..k], hostname) == Emission(lines, true)
    {
      var replica := replicas[k];
      var host := Host(replica.nodeName);
      if host.None? {
        EmitFailsAt(visited, replicas, k, hostname, lines);
        return lines, false;
      }
      EmitReplicaAt(visited, replicas, k, hostname, lines);
      if hostname.None? {
        lines := lines + [host.value + "\t" + Line(replica)];
      } else if hostname.value == host.value {
        lines := lines + [Line(replica)];
      }
      k := k + 1;
    }
    assert replicas[..k] == replicas;
    complete := true;
  }

  /** Replica k, with a readable host, after a complete prefix adds its lines. */
  lemma EmitReplicaAt(visited: seq<Replica>, replicas: seq<Replica>, k: nat, hostname: Option<string>, lines: seq<string>)
    requires k < |replicas| && Emit(visited + replicas[..k], hostname) == Emission(lines, true)
    requires Host(replicas[k].nodeName).Some?
    ensures var r, host := replicas[k], Host(replicas[k].nodeName).value;
      Emit(visited + replicas[..k + 1], hostname)
      == Emission(if hostname.None? then lines + [host + "\t" + Line(r)]
                  else if hostname.value == host then lines + [Line(r)]
                  else lines, true)
  {
    PrefixStep(visited, replicas, k);
    EmitStep(visited + replicas[..k], replicas[k], hostname);
    AppendEmpty(lines);
  }

  /** Replica k, with no readable host, after a complete prefix ends the emission. */
  lemma EmitFailsAt(visited: seq<Replica>, replicas: seq<Replica>, k: nat, hostname: Option<string>, lines: seq<string>)
    requires k < |replicas| && Emit(visited + replicas[..k], hostname) == Emission(lines, true)
    requires Host(replicas[k].nodeName).None?
    ensures Emit(visited + replicas, hostname) == Emission(lines, false)
  {
    PrefixStep(visited, replicas, k);
    EmitStep(visited + replicas[..k], replicas[k], hostname);
    EmitStopsAtFailure(visited + replicas[..k + 1], replicas[k + 1..], hostname);
  }

  lemma {:induction false} SliceReplicasAppend(a: seq<Slice>, b: seq<Slice>)
    ensures SliceReplicas(a + b) == SliceReplicas(a) + SliceReplicas(b)
    decreases |b|
  {
    if b == [] {
      AppendEmpty(a);
      AppendEmpty(SliceReplicas(a));
    } else {
      DropLastOfAppend(a, b);
      SliceReplicasAppend(a, b[..|b| - 1]);
      Assoc3(SliceReplicas(a), SliceReplicas(b[..|b| - 1]), b[|b| - 1].replicas);
    }
  }

  lemma {:induction false} WalkAppend(a: ClusterState, b: ClusterState)
    ensures Walk(a + b) == Walk(a) + Walk(b)
    decreases |b|
  {
    if b == [] {
      AppendEmpty(a);
      AppendEmpty(Walk(a));
    } else {
      DropLastOfAppend(a, b);
      WalkAppend(a, b[..|b| - 1]);
      Assoc3(Walk(a), Walk(b[..|b| - 1]), SliceReplicas(ActiveSlices(b[|b| - 1].slices)));
    }
  }

  /** The walk splits at collection i. */
  lemma {:induction false} WalkAt(cs: ClusterState, i: nat)
    requires i < |cs|
    ensures Walk(cs) == Walk(cs[..i]) + SliceReplicas(ActiveSlices(cs[i].slices)) + Walk(cs[i + 1..])
  {
    var front, one, back := cs[..i], [cs[i]], cs[i + 1..];
    assert cs == (front + one) + back;
    WalkAppend(front + one, back);
    WalkAppend(front, one);
    assert one[..0] == [];
    assert Walk(one) == Walk([]) + SliceReplicas(ActiveSlices(cs[i].slices));
  }

  /** The replicas of a run of slices split at slice j. */
  lemma {:induction false} SliceReplicasAt(slices: seq<Slice>, j: nat)
    requires j < |slices|
    ensures SliceReplicas(slices) == SliceReplicas(slices[..j]) + slices[j].replicas + SliceReplicas(slices[j + 1..])
  {
    var front, one, back := slices[..j], [slices[j]], slices[j + 1..];
    assert slices == (front + one) + back;
    SliceReplicasAppend(front + one, back);
    SliceReplicasAppend(front, one);
    assert one[..0] == [];
    assert SliceReplicas(one) == SliceReplicas([]) + slices[j].replicas;
  }

  /** Once a replica's host cannot be read, nothing more is written. */
  lemma {:induction false} EmitStopsAtFailure(p: seq<Replica>, q: seq<Replica>, hostname: Option<string>)
    requires !Emit(p, hostname).complete
    ensures Emit(p + q, hostname) == Emit(p, hostname)
    decreases |q|
  {
    if q == [] {
      AppendEmpty(p);
    } else {
      DropLastOfAppend(p, q);
      EmitStopsAtFailure(p, q[..|q| - 1], hostname);
    }
  }

  // ---- What the walk visits ----

  /** The active slices are exactly the slices whose state is active. */
  lemma {:induction false} ActiveSlicesMembers(slices: seq<Slice>)
    ensures forall s :: s in ActiveSlices(slices) <==> s in slices && s.state == Active
    ensures |ActiveSlices(slices)| <= |slices|
  {
    if slices != [] {
      var front := slices[..|slices| - 1];
      assert slices == front + [slices[|slices| - 1]];
      ActiveSlicesMembers(front);
    }
  }

  /** A replica is among those of a run of slices exactly when one of the slices holds it. */
  lemma {:induction false} SliceReplicasMembers(slices: seq<Slice>)
    ensures forall r :: r in SliceReplicas(slices) <==> exists s :: s in slices && r in s.replicas
  {
    if slices != [] {
      var front, last := slices[..|slices| - 1], slices[|slices| - 1];
      assert slices == front + [last];
      SliceReplicasMembers(front);
      assert SliceReplicas(slices) == SliceReplicas(front) + last.replicas;
      forall r | r in SliceReplicas(slices)
        ensures exists s :: s in slices && r in s.replicas
      {
        if r in last.replicas {
          assert last in slices;
        } else {
          var s :| s in front && r in s.replicas;
          assert s in slices;
        }
      }
      forall r, s | s in slices && r in s.replicas
        ensures r in SliceReplicas(slices)
      {
        if s != last {
          assert s in front;
        }
      }
    }
  }

  /** The walk visits a replica exactly when it belongs to an active slice of one of the
      collections. */
  lemma {:induction false} WalkMembers(cs: ClusterState)
    ensures forall r :: r in Walk(cs) <==>
      exists c, s :: c in cs && s in c.slices && s.state == Active && r in s.replicas
  {
    if cs != [] {
      var front, last := cs[..|cs| - 1], cs[|cs| - 1];
      assert cs == front + [last];
      WalkMembers(front);
      ActiveSlicesMembers(last.slices);
      SliceReplicasMembers(ActiveSlices(last.slices));
      assert Walk(cs) == Walk(front) + SliceReplicas(ActiveSlices(last.slices));
      forall r | r in Walk(cs)
        ensures exists c, s :: c in cs && s in c.slices && s.state == Active && r in s.replicas
      {
        if r in SliceReplicas(ActiveSlices(last.slices)) {
          var s :| s in ActiveSlices(last.slices) && r in s.replicas;
          assert last in cs && s in last.slices;
        } else {
          var c, s :| c in front && s in c.slices && s.state == Active && r in s.replicas;
          assert c in cs;
        }
      }
      forall r, c, s | c in cs && s in c.slices && s.state == Active && r in s.replicas
        ensures r in Walk(cs)
      {
        if c == last {
          assert s in ActiveSlices(last.slices);
        } else {
          assert c in front;
        }
      }
    }
  }

  // ---- What is written ----

  /** Every replica of the walk has a node name whose host can be read. */
  predicate Readable(walk: seq<Replica>) {
    forall i | 0 <= i < |walk| :: Host(walk[i].nodeName).Some?
  }

  lemma ReadableAppend(walk: seq<Replica>, r: Replica)
    ensures Readable(walk + [r]) <==> Readable(walk) && Host(r.nodeName).Some?
  {
    assert forall i | 0 <= i < |walk| :: (walk + [r])[i] == walk[i];
    assert (walk + [r])[|walk|] == r;
  }

  /** The walk gets to its end exactly when every host can be read, whatever the host
      name asked for. */
  lemma {:induction false} EmitCompleteIff(walk: seq<Replica>, hostname: Option<string>)
    ensures Emit(walk, hostname).complete <==> Readable(walk)
  {
    if walk != [] {
      var front := walk[..|walk| - 1];
      assert walk == front + [walk[|walk| - 1]];
      EmitCompleteIff(front, hostname);
      ReadableAppend(front, walk[|walk| - 1]);
    }
  }

  /** A replica whose host cannot be read ends the output: what is written is what the
      readable replicas before it wrote. */
  lemma EmitUpToFailure(walk: seq<Replica>, i: nat, hostname: Option<string>)
    requires i < |walk| && Readable(walk[..i]) && Host(walk[i].nodeName).None?
    ensures Emit(walk, hostname) == Emission(Emit(walk[..i], hostname).lines, false)
  {
    EmitCompleteIff(walk[..i], hostname);
    PrefixStep([], walk, i);
    assert [] + walk[..i] == walk[..i] && [] + walk[..i + 1] == walk[..i + 1] && [] + walk == walk;
    EmitStep(walk[..i], walk[i], hostname);
    EmitStopsAtFailure(walk[..i + 1], walk[i + 1..], hostname);
  }

  /** The descriptor line of a replica, with its host in front. */
  function HostLine(r: Replica): string
    requires Host(r.nodeName).Some?
  {
    Host(r.nodeName).value + "\t" + Render(Descriptor(r))
  }

  /** Without a host name, one line for each replica of the walk, in order, its host in
      front of its descriptor. */
  lemma {:induction false} EmitEveryReplica(walk: seq<Replica>)
    requires Readable(walk)
    ensures |Emit(walk, None).lines| == |walk|
    ensures forall i | 0 <= i < |walk| :: Emit(walk, None).lines[i] == HostLine(walk[i])
  {
    if walk != [] {
      var front, last := walk[..|walk| - 1], walk[|walk| - 1];
      assert walk == front + [last];
      ReadableAppend(front, last);
      EmitCompleteIff(front, None);
      EmitEveryReplica(front);
      EmitStep(front, last, None);
      assert forall i | 0 <= i < |front| :: walk[i] == front[i];
    }
  }

  /** The replicas of a walk on the given host, in order. */
  function OnHost(walk: seq<Replica>, host: string): (r: seq<Replica>)
    ensures |r| <= |walk|
  {
    if walk == [] then []
    else (if Host(walk[0].nodeName) == Some(host) then [walk[0]] else []) + OnHost(walk[1..], host)
  }

  /** The filter keeps the replicas on the host and only those. */
  lemma {:induction false} OnHostMembers(walk: seq<Replica>, host: string)
    ensures forall x :: x in OnHost(walk, host) <==> x in walk && Host(x.nodeName) == Some(host)
  {
    if walk != [] {
      assert walk == [walk[0]] + walk[1..];
      OnHostMembers(walk[1..], host);
    }
  }

  /** `f` applied to each element, in order. */
  function MapSeq<A, B>(f: A -> B, s: seq<A>): (r: seq<B>)
    ensures |r| == |s| && forall i | 0 <= i < |s| :: r[i] == f(s[i])
  {
    if s == [] then [] else [f(s[0])] + MapSeq(f, s[1..])
  }

  lemma {:induction false} MapSeqAppend<A, B>(f: A -> B, s: seq<A>, t: seq<A>)
    ensures MapSeq(f, s + t) == MapSeq(f, s) + MapSeq(f, t)
  {
    if s == [] {
      AppendEmpty(t);
    } else {
      DropFirstOfAppend(s, t);
      MapSeqAppend(f, s[1..], t);
      Assoc3([f(s[0])], MapSeq(f, s[1..]), MapSeq(f, t));
    }
  }

  /** The descriptor line of one replica. */
  function Line(r: Replica): string {
    Render(Descriptor(r))
  }

  /** Their descriptor lines. */
  function RenderAll(rs: seq<Replica>): (lines: seq<string>)
    ensures |lines| == |rs| && forall i | 0 <= i < |rs| :: lines[i] == Render(Descriptor(rs[i]))
  {
    MapSeq(Line, rs)
  }

  lemma {:induction false} OnHostAppend(walk: seq<Replica>, r: Replica, host: string)
    ensures OnHost(walk + [r], host)
         == OnHost(walk, host) + if Host(r.nodeName) == Some(host) then [r] else []
  {
    var last: seq<Replica> := if Host(r.nodeName) == Some(host) then [r] else [];
    if walk == [] {
      assert [r][1..] == [];
      assert walk + [r] == [r];
    } else {
      var w := walk + [r];
      var head: seq<Replica> := if Host(walk[0].nodeName) == Some(host) then [walk[0]] else [];
      assert w[0] == walk[0] && w[1..] == walk[1..] + [r];
      assert OnHost(w, host) == head + OnHost(walk[1..] + [r], host);
      OnHostAppend(walk[1..], r, host);
      assert OnHost(walk, host) == head + OnHost(walk[1..], host);
      Assoc3(head, OnHost(walk[1..], host), last);
    }
  }

  lemma RenderAllAppend(rs: seq<Replica>, more: seq<Replica>)
    ensures RenderAll(rs + more) == RenderAll(rs) + RenderAll(more)
  {
    MapSeqAppend(Line, rs, more);
  }

  lemma EmitOnHostStep(front: seq<Replica>, last: Replica, host: string)
    requires Emit(front, Some(host)).complete && Host(last.nodeName).Some?
    ensures Emit(front + [last], Some(host)).lines
         == Emit(front, Some(host)).lines + RenderAll(if Host(last.nodeName) == Some(host) then [last] else [])
  {
    EmitStep(front, last, Some(host));
  }

  /** With a host name, the descriptor lines of exactly the replicas on that host, in walk
      order, and nothing in front of them. */
  lemma {:induction false} EmitOnlyHost(walk: seq<Replica>, host: string)
    requires Readable(walk)
    ensures Emit(walk, Some(host)).lines == RenderAll(OnHost(walk, host))
  {
    if walk != [] {
      var front, last := walk[..|walk| - 1], walk[|walk| - 1];
      var kept: seq<Replica> := if Host(last.nodeName) == Some(host) then [last] else [];
      assert walk == front + [last];
      ReadableAppend(front, last);
      EmitCompleteIff(front, Some(host));
      EmitOnlyHost(front, host);
      EmitOnHostStep(front, last, host);
      OnHostAppend(front, last, host);
      RenderAllAppend(OnHost(front, host), kept);
    }
  }

  /** Two replicas that write the same: the same node and the same descriptor. */
  predicate SameOutput(r: Replica, r': Replica) {
    r.nodeName == r'.nodeName && Descriptor(r) == Descriptor(r')
  }

  /** A replica's own state (active, down, recovering, ...) is not looked at: the output
      depends only on the node names and the descriptors. */
  lemma {:induction false} EmitIgnoresOtherProperties(walk: seq<Replica>, walk': seq<Replica>, hostname: Option<string>)
    requires |walk| == |walk'| && forall i | 0 <= i < |walk| :: SameOutput(walk[i], walk'[i])
    ensures Emit(walk, hostname) == Emit(walk', hostname)
  {
    if walk != [] {
      var n := |walk| - 1;
      assert walk == walk[..n] + [walk[n]] && walk' == walk'[..n] + [walk'[n]];
      EmitIgnoresOtherProperties(walk[..n], walk'[..n], hostname);
      EmitStep(walk[..n], walk[n], hostname);
      EmitStep(walk'[..n], walk'[n], hostname);
    }
  }

  /** Setting the replica's "state" property leaves what it writes unchanged. */
  lemma ReplicaStateIgnored(r: Replica, state: string)
    ensures SameOutput(r, r.(props := r.props["state" := state]))
  {
    var r' := r.(props := r.props["state" := state]);
    assert Prop(r', "core") == Prop(r, "core");
    assert Prop(r', "shard") == Prop(r, "shard");
    assert Prop(r', "collection") == Prop(r, "collection");
  }
}
