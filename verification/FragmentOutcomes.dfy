/** The fragments of a script byte by byte, and what one of them makes of what a gateway has gathered. */
module FragmentOutcomes {
  import opened Bytes
  import opened Basics
  import opened Fragments

  // ----- Cutting -------------------------------------------------------------------------------

  /** The fragment holds these bytes of the script, as fragment i of n. */
  predicate Holds(f: Fragment, data: seq<byte>, i: nat, n: nat, from: nat) {
    && f.index == i && f.count == n && from + |f.chunk| <= |data|
    && forall j | 0 <= j < |f.chunk| :: f.chunk[j] == data[from + j]
  }

  /** A script is cut into the least number of fragments of mtu bytes, and at least one; each holds the
      mtu bytes behind those of the one before, and the last one what is left. */
  lemma CutExactly(data: seq<byte>, mtu: nat, i: nat)
    requires mtu > 0 && i < |AllCuts(data, mtu)|
    ensures var cuts := AllCuts(data, mtu);
            && |cuts| * mtu >= |data| && (|cuts| > 1 ==> (|cuts| - 1) * mtu < |data|)
            && Holds(cuts[i], data, i, |cuts|, i * mtu)
            && |cuts[i].chunk| == if i < |cuts| - 1 then mtu else |data| - i * mtu
  {
    var n := |AllCuts(data, mtu)|;
    ChunksCover(|data|, mtu);
    FirstCutsAt(data, mtu, n, i);
    WholePieces(|data|, mtu, n, i);
  }

  lemma WholePieces(length: nat, mtu: nat, n: nat, i: nat)
    requires mtu > 0 && i < n && n * mtu >= length && (n > 1 ==> (n - 1) * mtu < length)
    ensures i * mtu <= length && (if i < n - 1 then i * mtu + mtu <= length else i * mtu + mtu >= length)
  {
    assert (i + 1) * mtu == i * mtu + mtu;
    if i < n - 1 {
      assert (i + 1) * mtu <= (n - 1) * mtu;
    } else {
      assert (i + 1) * mtu == n * mtu;
    }
  }

  // ----- Gathering ------------------------------------------------------------------------------

  /** The first fragment starts anew and others are added to what has been gathered; the last of its
      count passes on all that, and keeps it until the send has ended. */
  lemma FragmentTaken(g: Gateway, f: Fragment)
    ensures var gathered, g' := if f.index == 0 then f.chunk else g.gathered + f.chunk, Do(g, Take(f));
            g' == if f.index == f.count - 1 then Gateway(gathered, g.scripts + [gathered], g.sending + 1)
                  else Gateway(gathered, g.scripts, g.sending)
  {
    assert [] + f.chunk == f.chunk;
  }

  /** A send that ends clears what has been gathered, unless it raised an error. */
  lemma SendEnds(g: Gateway, raised: bool)
    ensures Do(g, SendEnded(raised)) ==
            if g.sending == 0 then g else Gateway(if raised then g.gathered else [], g.scripts, g.sending - 1)
  {
  }
}
