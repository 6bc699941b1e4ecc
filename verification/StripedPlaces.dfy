// How one message moving from place to place keeps every place in order.
module StripedPlaces {
  import opened Bytes
  import opened FlatDisk
  import opened Atlas
  import opened StripedDisk
  import opened StripedInvariant

  // Every fragment that is on its way belongs to a slicer in the map.
  predicate Indexed(uids: seq<u32>, stage: seq<seq<Stage>>, slicerMap: map<u32, nat>) {
    && |uids| == |stage|
    && (forall u :: u in slicerMap ==> slicerMap[u] < |uids| && uids[slicerMap[u]] == u)
    && forall i, k :: 0 <= i < |stage| && 0 <= k < |stage[i]| && !stage[i][k].Unsent? && !stage[i][k].Merged? ==>
                        uids[i] in slicerMap && slicerMap[uids[i]] == i
  }

  function RemoveAt(sq: seq<Frame>, p: nat): seq<Frame>
    requires p < |sq|
  {
    sq[..p] + sq[p + 1..]
  }

  lemma KeysAfterRemove(sq: seq<Frame>, p: nat)
    requires p < |sq| && Distinct(sq)
    ensures Distinct(RemoveAt(sq, p))
    ensures Keys(RemoveAt(sq, p)) == Keys(sq) - {Key(sq[p])}
  {
    hide Key;
    var r := RemoveAt(sq, p);
    assert forall q :: 0 <= q < |r| ==> r[q] == sq[if q < p then q else q + 1];
    forall key | key in Keys(sq) - {Key(sq[p])} ensures key in Keys(r) {
      var q :| 0 <= q < |sq| && Key(sq[q]) == key;
      assert r[if q < p then q else q - 1] == sq[q];
    }
    forall key | key in Keys(r) ensures key in Keys(sq) - {Key(sq[p])} {
      var q :| 0 <= q < |r| && Key(r[q]) == key;
      assert Key(sq[if q < p then q else q + 1]) == key;
    }
  }

  lemma KeysAfterPut(sq: seq<Frame>, f: Frame)
    requires Distinct(sq) && Key(f) !in Keys(sq)
    ensures Distinct(sq + [f])
    ensures Keys(sq + [f]) == Keys(sq) + {Key(f)}
  {
    var r := sq + [f];
    assert forall q :: 0 <= q < |sq| ==> r[q] == sq[q];
    assert r[|sq|] == f;
    forall key | key in Keys(sq) ensures key in Keys(r) {
      var q :| 0 <= q < |sq| && Key(sq[q]) == key;
      assert Key(r[q]) == key;
    }
  }

  // A fragment changes stage somewhere else.
  lemma PlaceKeeps(c: Config, disk: seq<byte>, log: seq<Request>, uids: seq<u32>, stage: seq<seq<Stage>>, slicerMap: map<u32, nat>,
                   sq: seq<Frame>, at: Stage, dev: int, i: nat, k: nat, to: Stage)
    requires LogInv(c, disk, log) && Place(c, disk, log, uids, stage, slicerMap, sq, at, dev)
    requires i < |stage| && k < |stage[i]|
    requires Goes(c, log[i], k, dev) ==> stage[i][k] != at && to != at
    ensures Place(c, disk, log, uids, Put(stage, i, k, to), slicerMap, sq, at, dev)
  {
    var stage' := Put(stage, i, k, to);
    forall p | 0 <= p < |sq| ensures Located(c, disk, log, stage', slicerMap, sq[p], at, dev) {
      assert Located(c, disk, log, stage, slicerMap, sq[p], at, dev);
    }
  }

  // A message leaves, and its fragment with it.
  lemma PlaceTakes(c: Config, disk: seq<byte>, log: seq<Request>, uids: seq<u32>, stage: seq<seq<Stage>>, slicerMap: map<u32, nat>,
                   sq: seq<Frame>, at: Stage, dev: int, p: nat, to: Stage)
    requires LogInv(c, disk, log) && Place(c, disk, log, uids, stage, slicerMap, sq, at, dev)
    requires Indexed(uids, stage, slicerMap)
    requires p < |sq| && to != at && !at.Unsent? && !at.Merged?
    ensures sq[p].hdr.uid in slicerMap && slicerMap[sq[p].hdr.uid] < |stage| && sq[p].hdr.frag < |stage[slicerMap[sq[p].hdr.uid]]|
    ensures Place(c, disk, log, uids, Put(stage, slicerMap[sq[p].hdr.uid], sq[p].hdr.frag, to), slicerMap, RemoveAt(sq, p), at, dev)
  {
    assert Located(c, disk, log, stage, slicerMap, sq[p], at, dev);
    var i, k := slicerMap[sq[p].hdr.uid], sq[p].hdr.frag;
    var stage' := Put(stage, i, k, to);
    var sq' := RemoveAt(sq, p);
    KeysAfterRemove(sq, p);
    forall q | 0 <= q < |sq'| ensures Located(c, disk, log, stage', slicerMap, sq'[q], at, dev) {
      var was := if q < p then q else q + 1;
      assert sq'[q] == sq[was];
      assert Located(c, disk, log, stage, slicerMap, sq[was], at, dev);
      assert Key(sq[was]) != Key(sq[p]);
    }
    forall j, m | 0 <= j < |stage'| && 0 <= m < |stage'[j]| && stage'[j][m] == at && Goes(c, log[j], m, dev)
      ensures (uids[j], m) in Keys(sq')
    {
      assert stage[j][m] == at;
      assert (uids[j], m) != Key(sq[p]);
    }
  }

  // A message arrives, and its fragment with it.
  lemma PlacePuts(c: Config, disk: seq<byte>, log: seq<Request>, uids: seq<u32>, stage: seq<seq<Stage>>, slicerMap: map<u32, nat>,
                  sq: seq<Frame>, at: Stage, dev: int, i: nat, k: nat, f: Frame)
    requires LogInv(c, disk, log) && Place(c, disk, log, uids, stage, slicerMap, sq, at, dev)
    requires i < |stage| && k < |stage[i]| && stage[i][k] != at
    requires f.hdr.uid in slicerMap && slicerMap[f.hdr.uid] == i && f.hdr.frag == k && uids[i] == f.hdr.uid
    requires Located(c, disk, log, Put(stage, i, k, at), slicerMap, f, at, dev)
    ensures Place(c, disk, log, uids, Put(stage, i, k, at), slicerMap, sq + [f], at, dev)
  {
    var stage' := Put(stage, i, k, at);
    var sq' := sq + [f];
    forall p | 0 <= p < |sq| ensures Located(c, disk, log, stage', slicerMap, sq[p], at, dev) && Key(sq[p]) != Key(f) {
      assert Located(c, disk, log, stage, slicerMap, sq[p], at, dev);
    }
    KeysAfterPut(sq, f);
    forall j, m | 0 <= j < |stage'| && 0 <= m < |stage'[j]| && stage'[j][m] == at && Goes(c, log[j], m, dev)
      ensures (uids[j], m) in Keys(sq')
    {
      assert (j, m) == (i, k) || stage[j][m] == at;
    }
  }

  // A new request, none of whose fragments has been sent.
  lemma PlaceGrows(c: Config, disk: seq<byte>, log: seq<Request>, uids: seq<u32>, stage: seq<seq<Stage>>, slicerMap: map<u32, nat>,
                   sq: seq<Frame>, at: Stage, dev: int, r: Request, uid: u32)
    requires LogInv(c, disk, log) && Legal(c, r) && Place(c, disk, log, uids, stage, slicerMap, sq, at, dev) && !at.Unsent?
    requires forall i :: 0 <= i < |log| ==> |stage[i]| == Fragments(log[i])
    ensures LogInv(c, disk, log + [r])
    ensures Place(c, disk, log + [r], uids + [uid], stage + [AllUnsent(Fragments(r))], slicerMap, sq, at, dev)
  {
    var log', stage' := log + [r], stage + [AllUnsent(Fragments(r))];
    forall p | 0 <= p < |sq| ensures Located(c, disk, log', stage', slicerMap, sq[p], at, dev) {
      assert Located(c, disk, log, stage, slicerMap, sq[p], at, dev);
      var i := slicerMap[sq[p].hdr.uid];
      assert log'[..i] == log[..i];
    }
    forall j, m | 0 <= j < |stage'| && 0 <= m < |stage'[j]| && stage'[j][m] == at && Goes(c, log'[j], m, dev)
      ensures (uids + [uid])[j] == uids[j] && (uids[j], m) in Keys(sq)
    {
      assert stage'[j] == stage[j];
    }
  }

  // The map of slicers, or a uid nothing has been sent under, changes without touching the messages.
  lemma PlaceRemaps(c: Config, disk: seq<byte>, log: seq<Request>, uids: seq<u32>, stage: seq<seq<Stage>>, slicerMap: map<u32, nat>,
                    sq: seq<Frame>, at: Stage, dev: int, uids': seq<u32>, slicerMap': map<u32, nat>)
    requires LogInv(c, disk, log) && Place(c, disk, log, uids, stage, slicerMap, sq, at, dev)
    requires !at.Unsent? && !at.Merged?
    requires |uids'| == |uids|
    requires forall u :: u in slicerMap && OnTheWay(stage, slicerMap[u]) ==> u in slicerMap' && slicerMap'[u] == slicerMap[u]
    requires forall j :: 0 <= j < |uids| && OnTheWay(stage, j) ==> uids'[j] == uids[j]
    ensures Place(c, disk, log, uids', stage, slicerMap', sq, at, dev)
  {
    forall p | 0 <= p < |sq| ensures Located(c, disk, log, stage, slicerMap', sq[p], at, dev) {
      assert Located(c, disk, log, stage, slicerMap, sq[p], at, dev);
      assert OnTheWay(stage, slicerMap[sq[p].hdr.uid]);
    }
    forall j, m | 0 <= j < |stage| && 0 <= m < |stage[j]| && stage[j][m] == at && Goes(c, log[j], m, dev)
      ensures (uids'[j], m) in Keys(sq)
    {
      assert OnTheWay(stage, j);
    }
  }

  predicate OnTheWay(stage: seq<seq<Stage>>, i: nat) {
    i < |stage| && exists k :: 0 <= k < |stage[i]| && !stage[i][k].Unsent? && !stage[i][k].Merged?
  }

  // The same lemmas for all the places at once.
  lemma ChannelsRemap(c: Config, disk: seq<byte>, log: seq<Request>, uids: seq<u32>, stage: seq<seq<Stage>>, slicerMap: map<u32, nat>,
                      toDev: seq<seq<Frame>>, fromDev: seq<seq<Frame>>, tasks: seq<Frame>, uids': seq<u32>, slicerMap': map<u32, nat>)
    requires LogInv(c, disk, log) && ChannelsInv(c, disk, log, uids, stage, slicerMap, toDev, fromDev, tasks)
    requires |uids'| == |uids|
    requires forall u :: u in slicerMap && OnTheWay(stage, slicerMap[u]) ==> u in slicerMap' && slicerMap'[u] == slicerMap[u]
    requires forall j :: 0 <= j < |uids| && OnTheWay(stage, j) ==> uids'[j] == uids[j]
    ensures ChannelsInv(c, disk, log, uids', stage, slicerMap', toDev, fromDev, tasks)
  {
    forall d | 0 <= d < c.n ensures Place(c, disk, log, uids', stage, slicerMap', toDev[d], Requested, d) {
      PlaceRemaps(c, disk, log, uids, stage, slicerMap, toDev[d], Requested, d, uids', slicerMap');
    }
    forall d | 0 <= d < c.n ensures Place(c, disk, log, uids', stage, slicerMap', fromDev[d], Answered, d) {
      PlaceRemaps(c, disk, log, uids, stage, slicerMap, fromDev[d], Answered, d, uids', slicerMap');
    }
    PlaceRemaps(c, disk, log, uids, stage, slicerMap, tasks, Arrived, -1, uids', slicerMap');
  }

  lemma ChannelsGrow(c: Config, disk: seq<byte>, log: seq<Request>, uids: seq<u32>, stage: seq<seq<Stage>>, slicerMap: map<u32, nat>,
                     toDev: seq<seq<Frame>>, fromDev: seq<seq<Frame>>, tasks: seq<Frame>, r: Request, uid: u32)
    requires LogInv(c, disk, log) && Legal(c, r) && ChannelsInv(c, disk, log, uids, stage, slicerMap, toDev, fromDev, tasks)
    requires forall i :: 0 <= i < |log| ==> |stage[i]| == Fragments(log[i])
    ensures LogInv(c, disk, log + [r])
    ensures ChannelsInv(c, disk, log + [r], uids + [uid], stage + [AllUnsent(Fragments(r))], slicerMap, toDev, fromDev, tasks)
  {
    forall d | 0 <= d < c.n
      ensures Place(c, disk, log + [r], uids + [uid], stage + [AllUnsent(Fragments(r))], slicerMap, toDev[d], Requested, d)
    {
      PlaceGrows(c, disk, log, uids, stage, slicerMap, toDev[d], Requested, d, r, uid);
    }
    forall d | 0 <= d < c.n
      ensures Place(c, disk, log + [r], uids + [uid], stage + [AllUnsent(Fragments(r))], slicerMap, fromDev[d], Answered, d)
    {
      PlaceGrows(c, disk, log, uids, stage, slicerMap, fromDev[d], Answered, d, r, uid);
    }
    PlaceGrows(c, disk, log, uids, stage, slicerMap, tasks, Arrived, -1, r, uid);
  }
}
