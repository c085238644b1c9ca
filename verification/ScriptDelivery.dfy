/** Scripts sent in fragments on a topic, through the unordered subscription of the gateway. */
module ScriptDelivery {
  import opened Bytes
  import opened PacketQueues
  import opened Fragments
  import opened Uploads
  import opened Mqtt

  /** The fragments among some packets, in order. */
  function FragmentsOf(packets: seq<Packet<Body>>): seq<Fragment> {
    if packets == [] then []
    else
      var body := packets[|packets| - 1].body;
      FragmentsOf(packets[..|packets| - 1]) + if body.Script? then [body.fragment] else []
  }

  lemma {:induction false} FragmentIn(packets: seq<Packet<Body>>, f: Fragment)
    ensures f in FragmentsOf(packets) <==> exists p :: p in packets && p.body == Script(f)
  {
    if packets != [] {
      var front, last := packets[..|packets| - 1], packets[|packets| - 1];
      FragmentIn(front, f);
      assert packets == front + [last];
    }
  }

  lemma FragmentsCame(arr: seq<Packet<Body>>, all: seq<Packet<Body>>)
    requires From(arr, all)
    ensures forall f | f in FragmentsOf(arr) :: f in FragmentsOf(all)
  {
    forall f | f in FragmentsOf(arr) ensures f in FragmentsOf(all) {
      FragmentIn(arr, f);
      var p :| p in arr && p.body == Script(f);
      var i :| 0 <= i < |arr| && arr[i] == p;
      assert arr[i] in all;
      FragmentIn(all, f);
    }
  }

  lemma TakesAreCuts(acts: seq<Act>, data: seq<byte>, mtu: nat)
    requires mtu > 0 && forall f | f in TakesOf(acts) :: f in AllCuts(data, mtu)
    ensures OfScript(acts, data, mtu)
  {
    forall k | 0 <= k < |acts| && acts[k].Take? ensures IsCut(acts[k].fragment, data, mtu) {
      TakenAt(acts, k);
      var f := acts[k].fragment;
      assert f in TakesOf(acts);
      var i :| 0 <= i < |AllCuts(data, mtu)| && AllCuts(data, mtu)[i] == f;
      FirstCutsAt(data, mtu, Chunks(|data|, mtu), i);
    }
  }

  /** One script is sent on the topic, with other messages in between; the network loses, repeats
      and reorders as it likes, and sends to the device end at any time.  The gateway passes on
      exactly this script if and only if its last fragment comes once, and what came since the last
      fragment 0, or since a send that ended later, carries all the chunks in order. */
  lemma ScriptArrivesIff(pubs: seq<Publication>, c: Client, events: seq<Event>, topic: string,
                         out: seq<Packet<Body>>, g: Gateway, acts: seq<Act>, data: seq<byte>, mtu: nat)
    requires HandsOut(c, topic, out) && forall i | 0 <= i < |events| :: KeepsOrResets(events[i], topic)
    requires mtu > 0 && FragmentsOf(Enumerated(Bodies(pubs, topic))) == AllCuts(data, mtu)
    requires From(OnTopic(Messages(events), topic), OnTopic(Wire(pubs), topic))
    requires TakesOf(acts) == FragmentsOf(OnTopic(Messages(events), topic))
    ensures HandsOut(After(c, events), topic, out + OnTopic(Messages(events), topic))
    ensures DoAll(g, acts).scripts == g.scripts + [data] <==>
            exists p :: OnlyAt(acts, p) && Completes(g, acts[..p + 1], data, mtu)
  {
    NumberedPerTopic(pubs, topic);
    HandedOutAsArrived(c, events, topic, out);
    FragmentsCame(OnTopic(Messages(events), topic), OnTopic(Wire(pubs), topic));
    TakesAreCuts(acts, data, mtu);
    ScriptPassedOnIff(g, acts, data, mtu);
  }

  /** Scripts are sent on the topic, any of them broken off, with other messages in between.  For
      every network and every moment at which sends end: the gateway passes on exactly those sent to
      the end, in order, if and only if that many last fragments come and what has been collected at
      each is the script in its place.  When the network neither loses nor repeats nor reorders
      packets of the topic, this is so if and only if no send ends without an error between the
      first and the last fragment of such a script. */
  lemma ScriptsArrive(pubs: seq<Publication>, c: Client, events: seq<Event>, topic: string,
                      out: seq<Packet<Body>>, g: Gateway, acts: seq<Act>, uploads: seq<Upload>, mtu: nat)
    requires HandsOut(c, topic, out) && forall i | 0 <= i < |events| :: KeepsOrResets(events[i], topic)
    requires mtu > 0 && FragmentsOf(Enumerated(Bodies(pubs, topic))) == Stream(uploads, mtu)
    requires TakesOf(acts) == FragmentsOf(OnTopic(Messages(events), topic))
    ensures HandsOut(After(c, events), topic, out + OnTopic(Messages(events), topic))
    ensures var wanted := WholeScripts(uploads, mtu);
            DoAll(g, acts).scripts == g.scripts + wanted <==>
            Passed(acts) == |wanted| && AllWanted(g, acts, wanted)
    ensures OnTopic(Messages(events), topic) == OnTopic(Wire(pubs), topic) ==>
              (DoAll(g, acts).scripts == g.scripts + WholeScripts(uploads, mtu) <==>
               Undisturbed(g, acts, uploads, mtu))
  {
    NumberedPerTopic(pubs, topic);
    HandedOutAsArrived(c, events, topic, out);
    PassedOnIff(g, acts, WholeScripts(uploads, mtu));
    if OnTopic(Messages(events), topic) == OnTopic(Wire(pubs), topic) {
      OnlyWholeUploadsArrive(g, acts, uploads, mtu);
    }
  }

  /** With an ordered subscription instead, which the gateway does not make, a network may also
      reorder and repeat: as long as it delivers everything, the first message first, and repeats no
      message while an earlier one is missing, only sends that end in between do harm. */
  lemma OrderedScriptsArrive(pubs: seq<Publication>, c: Client, events: seq<Event>, topic: string,
                             g: Gateway, acts: seq<Act>, uploads: seq<Upload>, mtu: nat)
    requires Awaits(c, topic) && forall i | 0 <= i < |events| :: Keeps(events[i], topic)
    requires mtu > 0 && FragmentsOf(Enumerated(Bodies(pubs, topic))) == Stream(uploads, mtu)
    requires var arr, all := OnTopic(Messages(events), topic), OnTopic(Wire(pubs), topic);
             arr != [] && arr[0].num == 0 && From(arr, all) && From(all, arr) && !RepeatedEarly(arr, |all|)
    requires TakesOf(acts) == Stream(uploads, mtu)
    ensures Route(After(c, events), topic).Some?
    ensures FragmentsOf(Route(After(c, events), topic).value.queue.out) == TakesOf(acts)
    ensures DoAll(g, acts).scripts == g.scripts + WholeScripts(uploads, mtu) <==> Undisturbed(g, acts, uploads, mtu)
  {
    NumberedPerTopic(pubs, topic);
    DeliveredAsPublished(pubs, c, events, topic);
    OnlyWholeUploadsArrive(g, acts, uploads, mtu);
  }
}
