// A request cut in two by another, compared with the flat disk that serves the two one after the other.
module StripedTorn {
  import opened Bytes
  import opened FlatDisk
  import opened Atlas
  import opened StripedDisk
  import opened StripedTheorems
  import opened StripedLooseRuns
  import opened StripedConflicts

  // Block x belongs to both requests.
  predicate Common(a: Request, b: Request, x: nat) {
    && BlockNo(a, 0) <= x < BlockNo(a, 0) + Fragments(a)
    && BlockNo(b, 0) <= x < BlockNo(b, 0) + Fragments(b)
  }

  predicate Fitting(disk: seq<byte>, r: Request) {
    Fits(r, |disk|) && |disk| % FRAGMENT == 0 && r.from % FRAGMENT == 0 && r.len % FRAGMENT == 0
  }

  // What request r makes of block x.
  function Made(disk: seq<byte>, r: Request, x: nat): seq<byte>
    requires Fitting(disk, r) && x * FRAGMENT + FRAGMENT <= |disk|
  {
    if r.cmd.Write? && BlockNo(r, 0) <= x < BlockNo(r, 0) + Fragments(r) then BlockAt(r.data, (x - BlockNo(r, 0)) * FRAGMENT)
    else BlockAt(disk, x * FRAGMENT)
  }

  // The order of the two requests shows in block x.
  predicate Differ(disk: seq<byte>, a: Request, b: Request, x: nat)
    requires Fitting(disk, a) && Fitting(disk, b)
  {
    Common(a, b, x) && (a.cmd.Write? || b.cmd.Write?) && Made(disk, a, x) != Made(disk, b, x)
  }

  lemma PartlyAt(disk: seq<byte>, r: Request, first: nat, lo: nat, hi: nat, x: nat)
    requires InParts(disk, r, lo, hi) && r.cmd.Write? && r.from == first * FRAGMENT && x * FRAGMENT + FRAGMENT <= |disk|
    ensures first + lo <= x < first + hi ==> BlockAt(Partly(disk, r, lo, hi), x * FRAGMENT) == BlockAt(r.data, (x - first) * FRAGMENT)
    ensures !(first + lo <= x < first + hi) ==> BlockAt(Partly(disk, r, lo, hi), x * FRAGMENT) == BlockAt(disk, x * FRAGMENT)
  {
    hide Splice, BlockAt;
    var data := r.data[lo * FRAGMENT..hi * FRAGMENT];
    SpliceBlocks(disk, r.from + lo * FRAGMENT, data, x * FRAGMENT);
    if first + lo <= x < first + hi {
      BlockOfSlice(r.data, lo * FRAGMENT, (hi - lo) * FRAGMENT, (x - first - lo) * FRAGMENT);
      assert lo * FRAGMENT + (hi - lo) * FRAGMENT == hi * FRAGMENT;
    }
  }

  lemma PartlyBlock(disk: seq<byte>, r: Request, lo: nat, hi: nat, x: nat)
    requires Fitting(disk, r) && InParts(disk, r, lo, hi) && x * FRAGMENT + FRAGMENT <= |disk|
    ensures BlockAt(Partly(disk, r, lo, hi), x * FRAGMENT)
            == if BlockNo(r, lo) <= x < BlockNo(r, hi) then Made(disk, r, x) else BlockAt(disk, x * FRAGMENT)
  {
    hide BlockAt;
    if r.cmd.Write? {
      hide Partly;
      PartlyAt(disk, r, r.from / FRAGMENT, lo, hi, x);
    }
  }

  lemma EffectBlock(disk: seq<byte>, r: Request, x: nat)
    requires Fitting(disk, r) && x * FRAGMENT + FRAGMENT <= |disk|
    ensures BlockAt(Effect(disk, r), x * FRAGMENT) == Made(disk, r, x)
  {
    AllParts(disk, r);
    PartlyBlock(disk, r, 0, Fragments(r), x);
  }

  lemma BlocksDecide(s: seq<byte>, t: seq<byte>)
    requires |s| == |t| && |s| % FRAGMENT == 0
    ensures s == t <==> forall k: nat :: k < |s| / FRAGMENT ==> k * FRAGMENT + FRAGMENT <= |s| && BlockAt(s, k * FRAGMENT) == BlockAt(t, k * FRAGMENT)
  {
    if forall k: nat :: k < |s| / FRAGMENT ==> k * FRAGMENT + FRAGMENT <= |s| && BlockAt(s, k * FRAGMENT) == BlockAt(t, k * FRAGMENT) {
      BlocksDetermine(s, t);
    }
  }

  lemma After2(disk: seq<byte>, a: Request, b: Request)
    requires Fits(a, |disk|) && Fits(b, |disk|)
    ensures AllFit([a, b], |disk|) && After(disk, [a, b]) == Effect(Effect(disk, a), b)
    ensures Want(disk, [a, b], 0) == Answer(disk, a) && Want(disk, [a, b], 1) == Answer(Effect(disk, a), b)
  {
    AfterOneMore(disk, [], a);
    AfterOneMore(disk, [a], b);
    assert [] + [a] == [a] && [a] + [b] == [a, b];
    assert [a, b][..0] == [] && [a, b][..1] == [a];
  }

  // Does the order show in a common block at or after fragment k of a (`late`), or before it?
  predicate ShowsOrder(disk: seq<byte>, a: Request, b: Request, k: nat, late: bool)
    requires Fitting(disk, a) && Fitting(disk, b)
  {
    exists x: nat :: x < |disk| / FRAGMENT && Differ(disk, a, b, x) && (late <==> x >= BlockNo(a, k))
  }

  lemma OutcomeBlock(disk: seq<byte>, a: Request, b: Request, k: nat, x: nat)
    requires Fitting(disk, a) && Fitting(disk, b) && k <= Fragments(a) && x * FRAGMENT + FRAGMENT <= |disk|
    ensures BlockAt(AtTheEnd(disk, a, b, k), x * FRAGMENT)
            == if a.cmd.Write? && BlockNo(a, k) <= x < BlockNo(a, Fragments(a)) then Made(disk, a, x)
               else if b.cmd.Write? && BlockNo(b, 0) <= x < BlockNo(b, Fragments(b)) then Made(disk, b, x)
               else if a.cmd.Write? && BlockNo(a, 0) <= x < BlockNo(a, k) then Made(disk, a, x)
               else BlockAt(disk, x * FRAGMENT)
  {
    hide Partly, Effect, BlockAt;
    PartlyBlock(disk, a, 0, k, x);
    EffectBlock(Partly(disk, a, 0, k), b, x);
    PartlyBlock(Between(disk, a, b, k), a, k, Fragments(a), x);
  }

  lemma OneAfterTheOther(disk: seq<byte>, a: Request, b: Request, x: nat)
    requires Fitting(disk, a) && Fitting(disk, b) && x * FRAGMENT + FRAGMENT <= |disk|
    ensures BlockAt(Effect(Effect(disk, a), b), x * FRAGMENT)
            == if b.cmd.Write? && BlockNo(b, 0) <= x < BlockNo(b, Fragments(b)) then Made(disk, b, x) else Made(disk, a, x)
  {
    hide Effect, BlockAt;
    EffectBlock(disk, a, x);
    EffectBlock(Effect(disk, a), b, x);
  }

  // The storage is that of one order unless both requests are WRITEs and the order shows where they were carried out in the
  // other.
  lemma StorageOfOrder(disk: seq<byte>, a: Request, b: Request, k: nat)
    requires Fitting(disk, a) && Fitting(disk, b) && k <= Fragments(a)
    ensures AtTheEnd(disk, a, b, k) == Effect(Effect(disk, a), b) <==> !(a.cmd.Write? && b.cmd.Write? && ShowsOrder(disk, a, b, k, true))
    ensures AtTheEnd(disk, a, b, k) == Effect(Effect(disk, b), a) <==> !(a.cmd.Write? && b.cmd.Write? && ShowsOrder(disk, a, b, k, false))
  {
    hide AtTheEnd, Effect, BlockAt, Made;
    var end, ab, ba := AtTheEnd(disk, a, b, k), Effect(Effect(disk, a), b), Effect(Effect(disk, b), a);
    forall x: nat | x < |disk| / FRAGMENT
      ensures x * FRAGMENT + FRAGMENT <= |disk|
      ensures BlockAt(end, x * FRAGMENT) == BlockAt(ab, x * FRAGMENT)
              <==> !(a.cmd.Write? && b.cmd.Write? && Differ(disk, a, b, x) && x >= BlockNo(a, k))
      ensures BlockAt(end, x * FRAGMENT) == BlockAt(ba, x * FRAGMENT)
              <==> !(a.cmd.Write? && b.cmd.Write? && Differ(disk, a, b, x) && x < BlockNo(a, k))
    {
      OutcomeBlock(disk, a, b, k, x);
      OneAfterTheOther(disk, a, b, x);
      OneAfterTheOther(disk, b, a, x);
      MadeElsewhere(disk, a, x);
      MadeElsewhere(disk, b, x);
    }
    BlocksDecide(end, ab);
    BlocksDecide(end, ba);
  }

  lemma MadeElsewhere(disk: seq<byte>, r: Request, x: nat)
    requires Fitting(disk, r) && x * FRAGMENT + FRAGMENT <= |disk|
    ensures !(r.cmd.Write? && BlockNo(r, 0) <= x < BlockNo(r, Fragments(r))) ==> Made(disk, r, x) == BlockAt(disk, x * FRAGMENT)
  {
  }

  lemma AnswerBlock(disk: seq<byte>, r: Request, j: nat)
    requires Fitting(disk, r) && r.cmd.Read? && j < Fragments(r)
    ensures j * FRAGMENT + FRAGMENT <= |Answer(disk, r)| == r.len && BlockNo(r, j) * FRAGMENT + FRAGMENT <= |disk|
    ensures BlockAt(Answer(disk, r), j * FRAGMENT) == BlockAt(disk, BlockNo(r, j) * FRAGMENT)
  {
    BlockOfSlice(disk, r.from, r.len, j * FRAGMENT);
  }

  lemma SplitBlock(early: seq<byte>, late: seq<byte>, r: Request, k: nat, j: nat)
    requires |early| == |late| && Fitting(early, r) && k <= Fragments(r) && j < Fragments(r)
    ensures InParts(early, r, 0, k) && |Split(early, late, r, k)| == r.len
    ensures j * FRAGMENT + FRAGMENT <= r.len && BlockNo(r, j) * FRAGMENT + FRAGMENT <= |early|
    ensures BlockAt(Split(early, late, r, k), j * FRAGMENT) == BlockAt(if j < k then early else late, BlockNo(r, j) * FRAGMENT)
  {
    var all, block := Split(early, late, r, k), BlockAt(Split(early, late, r, k), j * FRAGMENT);
    forall i | 0 <= i < FRAGMENT ensures block[i] == (if j < k then early else late)[BlockNo(r, j) * FRAGMENT + i] {
      assert block[i] == all[j * FRAGMENT + i];
    }
  }

  // A READ that is cut sees the WRITE in its late fragments only.
  lemma AnswerOfCut(disk: seq<byte>, a: Request, b: Request, k: nat)
    requires Fitting(disk, a) && Fitting(disk, b) && k <= Fragments(a) && a.cmd.Read?
    ensures InParts(disk, a, 0, k)
    ensures Split(disk, Between(disk, a, b, k), a, k) == Answer(disk, a) <==> !ShowsOrder(disk, a, b, k, true)
    ensures Split(disk, Between(disk, a, b, k), a, k) == Answer(Effect(disk, b), a) <==> !ShowsOrder(disk, a, b, k, false)
  {
    var got, ab, ba := Split(disk, Between(disk, a, b, k), a, k), Answer(disk, a), Answer(Effect(disk, b), a);
    hide Answer, Split, Effect, BlockAt, Made;
    assert Between(disk, a, b, k) == Effect(disk, b);
    forall j: nat | j < Fragments(a)
      ensures j * FRAGMENT + FRAGMENT <= |got| == |ab| == |ba| == a.len
      ensures BlockAt(got, j * FRAGMENT) == BlockAt(ab, j * FRAGMENT) <==> !(Differ(disk, a, b, BlockNo(a, j)) && j >= k)
      ensures BlockAt(got, j * FRAGMENT) == BlockAt(ba, j * FRAGMENT) <==> !(Differ(disk, a, b, BlockNo(a, j)) && j < k)
    {
      SplitBlock(disk, Effect(disk, b), a, k, j);
      AnswerBlock(disk, a, j);
      AnswerBlock(Effect(disk, b), a, j);
      EffectBlock(disk, b, BlockNo(a, j));
      MadeElsewhere(disk, a, BlockNo(a, j));
      MadeElsewhere(disk, b, BlockNo(a, j));
    }
    CutLengths(disk, a, b, k);
    BlocksDecide(got, ab);
    BlocksDecide(got, ba);
    ShowsAt(disk, a, b, k, true);
    ShowsAt(disk, a, b, k, false);
  }

  lemma CutLengths(disk: seq<byte>, a: Request, b: Request, k: nat)
    requires Fitting(disk, a) && Fitting(disk, b) && k <= Fragments(a) && a.cmd.Read?
    ensures InParts(disk, a, 0, k)
    ensures |Split(disk, Between(disk, a, b, k), a, k)| == |Answer(disk, a)| == |Answer(Effect(disk, b), a)| == a.len
  {
  }

  // The same, counted by the fragments of a.
  lemma ShowsAt(disk: seq<byte>, a: Request, b: Request, k: nat, late: bool)
    requires Fitting(disk, a) && Fitting(disk, b)
    ensures ShowsOrder(disk, a, b, k, late)
            <==> exists j: nat :: j < Fragments(a) && Differ(disk, a, b, BlockNo(a, j)) && (late <==> j >= k)
  {
    hide Made;
    if x: nat :| x < |disk| / FRAGMENT && Differ(disk, a, b, x) && (late <==> x >= BlockNo(a, k)) {
      var j: nat := x - BlockNo(a, 0);
      assert BlockNo(a, j) == x;
    }
    if j: nat :| j < Fragments(a) && Differ(disk, a, b, BlockNo(a, j)) && (late <==> j >= k) {
      assert BlockNo(a, j) < |disk| / FRAGMENT;
    }
  }

  lemma AnswerOfOther(disk: seq<byte>, a: Request, b: Request, k: nat)
    requires Fitting(disk, a) && Fitting(disk, b) && k <= Fragments(a) && b.cmd.Read?
    ensures InParts(disk, a, 0, k)
    ensures Answer(Partly(disk, a, 0, k), b) == Answer(Effect(disk, a), b) <==> !ShowsOrder(disk, a, b, k, true)
    ensures Answer(Partly(disk, a, 0, k), b) == Answer(disk, b) <==> !ShowsOrder(disk, a, b, k, false)
  {
    var part := Partly(disk, a, 0, k);
    var got, ab, ba := Answer(part, b), Answer(Effect(disk, a), b), Answer(disk, b);
    assert |got| == |ab| == |ba| == b.len;
    hide Answer, Effect, Partly, BlockAt, Made;
    forall j: nat | j < Fragments(b)
      ensures j * FRAGMENT + FRAGMENT <= b.len
      ensures BlockAt(got, j * FRAGMENT) == BlockAt(ab, j * FRAGMENT) <==> !(Differ(disk, a, b, BlockNo(b, j)) && BlockNo(b, j) >= BlockNo(a, k))
      ensures BlockAt(got, j * FRAGMENT) == BlockAt(ba, j * FRAGMENT) <==> !(Differ(disk, a, b, BlockNo(b, j)) && BlockNo(b, j) < BlockNo(a, k))
    {
      AnswerBlock(part, b, j);
      AnswerBlock(disk, b, j);
      AnswerBlock(Effect(disk, a), b, j);
      PartlyBlock(disk, a, 0, k, BlockNo(b, j));
      EffectBlock(disk, a, BlockNo(b, j));
      MadeElsewhere(disk, a, BlockNo(b, j));
      MadeElsewhere(disk, b, BlockNo(b, j));
    }
    BlocksDecide(got, ab);
    BlocksDecide(got, ba);
    ShowsAtOther(disk, a, b, k, true);
    ShowsAtOther(disk, a, b, k, false);
  }

  lemma ShowsAtOther(disk: seq<byte>, a: Request, b: Request, k: nat, late: bool)
    requires Fitting(disk, a) && Fitting(disk, b)
    ensures ShowsOrder(disk, a, b, k, late)
            <==> exists j: nat :: j < Fragments(b) && Differ(disk, a, b, BlockNo(b, j)) && (late <==> BlockNo(b, j) >= BlockNo(a, k))
  {
    hide Made;
    if x: nat :| x < |disk| / FRAGMENT && Differ(disk, a, b, x) && (late <==> x >= BlockNo(a, k)) {
      var j: nat := x - BlockNo(b, 0);
      assert BlockNo(b, j) == x;
    }
    if j: nat :| j < Fragments(b) && Differ(disk, a, b, BlockNo(b, j)) && (late <==> BlockNo(b, j) >= BlockNo(a, k)) {
      assert BlockNo(b, j) < |disk| / FRAGMENT;
    }
  }

  // ---------- the run ----------

  // Everything is as if the flat disk had served first the one and then the other.
  predicate LikeFlat(c: Config, disk: seq<byte>, s: State, first: Request, second: Request, firstIndex: nat, secondIndex: nat) {
    && AllFit([first, second], |disk|)
    && Shows(c, s.storage, After(disk, [first, second]))
    && forall p :: 0 <= p < |s.done| ==>
         && (s.done[p].index == firstIndex ==> s.done[p].payload == Want(disk, [first, second], 0))
         && (s.done[p].index == secondIndex ==> s.done[p].payload == Want(disk, [first, second], 1))
  }

  lemma ShowsOne(c: Config, storage: seq<seq<byte>>, flat: seq<byte>, other: seq<byte>)
    requires Shows(c, storage, flat) && |other| == c.size
    ensures Shows(c, storage, other) <==> other == flat
  {
    hide StoredBlock, BlockAt;
    if Shows(c, storage, other) {
      forall b: nat | b < c.size / FRAGMENT ensures b * FRAGMENT + FRAGMENT <= |flat| && BlockAt(flat, b * FRAGMENT) == BlockAt(other, b * FRAGMENT) {
        assert StoredBlock(c, storage, b) == BlockAt(flat, b * FRAGMENT) && StoredBlock(c, storage, b) == BlockAt(other, b * FRAGMENT);
      }
      BlocksDetermine(flat, other);
    }
  }

  // A cut run looks like the one order exactly when the order does not show in a block carried out in the other.
  lemma CutLooksLike(c: Config, disk: seq<byte>, s: State, a: Request, b: Request, k: nat)
    requires Cut(c, disk, a, b, k, s)
    ensures Fitting(disk, a) && Fitting(disk, b)
    ensures LikeFlat(c, disk, s, a, b, 0, 1) <==> !ShowsOrder(disk, a, b, k, true)
    ensures LikeFlat(c, disk, s, b, a, 1, 0) <==> !ShowsOrder(disk, a, b, k, false)
  {
    hide Shows, AtTheEnd, Effect, After, Split, Partly, ShowsOrder, Between, Idle, Want;
    After2(disk, a, b);
    After2(disk, b, a);
    StorageOfOrder(disk, a, b, k);
    ShowsOne(c, s.storage, AtTheEnd(disk, a, b, k), After(disk, [a, b]));
    ShowsOne(c, s.storage, AtTheEnd(disk, a, b, k), After(disk, [b, a]));
    if a.cmd.Read? {
      AnswerOfCut(disk, a, b, k);
    }
    if b.cmd.Read? {
      AnswerOfOther(disk, a, b, k);
    }
    DoneOf(s, Completion(1, Answer(Partly(disk, a, 0, k), b)),
           Completion(0, if a.cmd.Read? then Split(disk, Between(disk, a, b, k), a, k) else []));
  }

  lemma DoneOf(s: State, first: Completion, second: Completion)
    requires s.done == [first, second]
    ensures |s.done| == 2 && s.done[0] == first && s.done[1] == second
  {
  }

  // For every number of servers and every two requests whose order shows in some block, there is a run that ends with both
  // completed and is not what the flat disk makes of them in the order they were handed over; and if it shows in two blocks,
  // there is one that is not what the flat disk makes of them in any order.
  lemma ConflictsTear(c: Config, disk: seq<byte>, s: State, a: Request, b: Request, x: nat) returns (end: State)
    requires Init(c, disk, s) && Whole(c, a) && Whole(c, b) && |disk| == c.size
    requires Fitting(disk, a) && Fitting(disk, b) && Differ(disk, a, b, x)
    ensures Reached(c, disk, end) && end.log == [a, b] && Idle(end) && Completed(end, 0) && Completed(end, 1)
    ensures !LikeFlat(c, disk, end, a, b, 0, 1)
    ensures (exists y: nat :: y < x && Differ(disk, a, b, y)) ==> !LikeFlat(c, disk, end, b, a, 1, 0)
  {
    hide Reached, LikeFlat, Differ, Init, Idle;
    assert BlockNo(a, 0) <= x < BlockNo(a, Fragments(a)) by { InFirst(disk, a, b, x); }
    var k: nat := x - BlockNo(a, 0);
    end := RunThatCuts(c, disk, s, a, b, k);
    CutLooksLike(c, disk, end, a, b, k);
    assert x < |disk| / FRAGMENT;
    CutCompletes(c, disk, a, b, k, end);
    if y: nat :| y < x && Differ(disk, a, b, y) {
      assert ShowsOrder(disk, a, b, k, false);
    }
    assert ShowsOrder(disk, a, b, k, true);
  }

  // Such requests conflict, so they are never in flight together in an allowed run.
  lemma DifferIsConflict(c: Config, disk: seq<byte>, a: Request, b: Request, x: nat)
    requires Whole(c, a) && Whole(c, b) && Fitting(disk, a) && Fitting(disk, b) && Differ(disk, a, b, x)
    ensures Conflict(a, b)
  {
  }

  lemma InFirst(disk: seq<byte>, a: Request, b: Request, x: nat)
    requires Fitting(disk, a) && Fitting(disk, b) && Differ(disk, a, b, x)
    ensures BlockNo(a, 0) <= x < BlockNo(a, Fragments(a))
  {
  }

  lemma CutCompletes(c: Config, disk: seq<byte>, a: Request, b: Request, k: nat, s: State)
    requires Cut(c, disk, a, b, k, s)
    ensures s.log == [a, b] && Idle(s) && Completed(s, 0) && Completed(s, 1)
  {
    assert s.done[0].index == 1 && s.done[1].index == 0;
  }
}
