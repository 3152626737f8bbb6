/** Bags in their own lanes that start at any time and are missed now and then: they can be followed as long as no gap
    between sightings exceeds the maximal age. */
module Schedules {
  import opened Seqs
  import opened Geometry
  import opened Scene
  import opened Tracking
  import opened Pipeline
  import opened CountTheorems
  import opened Bags
  import opened BagCount
  import opened Lanes

  /** Which bags the detector sees in which frames. */
  type Schedule = (nat, nat) -> bool

  /** The bags below `k` that show in frame `f`, in order. */
  function Visible(bags: seq<Bag>, seen: Schedule, f: nat, k: nat): (r: seq<nat>)
    requires k <= |bags|
    ensures forall i | 0 <= i < |r| :: r[i] < k && bags[r[i]].first <= f && seen(r[i], f)
    ensures forall b: nat | b < k && bags[b].first <= f && seen(b, f) :: b in r
    ensures Increasing(r)
  {
    if k == 0 then []
    else
      Visible(bags, seen, f, k - 1) + if bags[k - 1].first <= f && seen(k - 1, f) then [k - 1] else []
  }

  function Show(bags: seq<Bag>, labels: seq<nat>, f: nat, score: real): (r: seq<Detection>)
    requires forall j | 0 <= j < |labels| :: labels[j] < |bags|
    ensures |r| == |labels|
  {
    seq(|labels|, j requires 0 <= j < |labels| => Detection(BagAt(bags[labels[j]], f), score))
  }

  function ScheduleWorld(bags: seq<Bag>, seen: Schedule, score: real, n: nat): World {
    World(bags,
          seq(n, f requires 0 <= f < n => Visible(bags, seen, f, |bags|)),
          seq(n, f requires 0 <= f < n => Show(bags, Visible(bags, seen, f, |bags|), f, score)))
  }

  /** A bag is seen in its first two frames, and before each later sighting at most `age` frames were missed. */
  ghost predicate SeenOften(age: nat, bags: seq<Bag>, seen: Schedule, n: nat) {
    forall b: nat, f: nat | b < |bags| && bags[b].first <= f < n ::
      && (f <= bags[b].first + 1 ==> seen(b, f))
      && (f > bags[b].first && seen(b, f) ==> SeenBefore(age, bags[b].first, seen, b, f))
  }

  ghost predicate SeenBefore(age: nat, first: nat, seen: Schedule, b: nat, f: nat) {
    exists e: nat :: first <= e < f && f <= e + 1 + age && seen(b, e)
  }

  lemma ScheduleFrame(bags: seq<Bag>, seen: Schedule, score: real, n: nat, f: nat)
    requires f < n
    ensures var w := ScheduleWorld(bags, seen, score, n);
            && FrameConsistent(w, f)
            && forall b: nat :: b in w.labels[f] <==> b < |bags| && bags[b].first <= f && seen(b, f)
  {
    hide BagAt;
  }

  lemma ScheduleConsistent(age: nat, bags: seq<Bag>, seen: Schedule, score: real, n: nat)
    requires SeenOften(age, bags, seen, n)
    ensures Consistent(ScheduleWorld(bags, seen, score, n))
  {
    hide FrameConsistent, Visible, Show;
    var w := ScheduleWorld(bags, seen, score, n);
    forall f: nat | f < n
      ensures FrameConsistent(w, f)
      ensures forall b: nat :: b in w.labels[f] <==> b < |bags| && bags[b].first <= f && seen(b, f)
    {
      ScheduleFrame(bags, seen, score, n, f);
    }
  }

  lemma {:induction false} GapSince(w: World, b: nat, e: nat, f: nat)
    requires e < f <= |w.labels| && b in w.labels[e]
    ensures Gap(w, b, f) <= f - e - 1
  {
    if f == e + 1 {
    } else {
      GapSince(w, b, e, f - 1);
    }
  }

  /** Any number of bags in their own lanes can be followed, whenever they start and whenever they are missed. */
  lemma ScheduleFollowable(settings: Settings, bags: seq<Bag>, seen: Schedule, score: real, n: nat)
    requires OwnLanes(settings, bags) && SeenOften(settings.trackerMaxAge, bags, seen, n)
    ensures var w := ScheduleWorld(bags, seen, score, n); Consistent(w) && Followable(settings, w)
  {
    ScheduleConsistent(settings.trackerMaxAge, bags, seen, score, n);
    hide Iou, BagAt, Consistent, ExpectedAt, Gap, Visible, FrameConsistent;
    var w := ScheduleWorld(bags, seen, score, n);
    forall b: nat, f: nat | b < |bags| && bags[b].first < f < n && b in w.labels[f]
      ensures Gap(w, b, f) <= settings.trackerMaxAge
    {
      ScheduleFrame(bags, seen, score, n, f);
      assert SeenBefore(settings.trackerMaxAge, bags[b].first, seen, b, f);
      var e: nat :| bags[b].first <= e < f && f <= e + 1 + settings.trackerMaxAge && seen(b, e);
      ScheduleFrame(bags, seen, score, n, e);
      GapSince(w, b, e, f);
    }
    forall b: nat, f: nat, j: nat | b < |bags| && f < n && j < |w.labels[f]| && j < |w.frames[f]| && w.labels[f][j] != b
      ensures Iou(ExpectedAt(bags[b], f), w.frames[f][j].bbox) == 0.0
    {
      ScheduleFrame(bags, seen, score, n, f);
      LanesStayApart(settings, bags, b, w.labels[f][j], f);
    }
  }

  // ----- a bag that comes late and is missed at the line -----

  lemma ScheduleSighting(bags: seq<Bag>, seen: Schedule, score: real, n: nat, b: nat, k: nat)
    requires Consistent(ScheduleWorld(bags, seen, score, n)) && b < |bags| && k < n
    ensures var w := ScheduleWorld(bags, seen, score, n);
            SightingsOf(w, b, k + 1)
            == SightingsOf(w, b, k) + if bags[b].first <= k && seen(b, k) then [Detection(BagAt(bags[b], k), score)] else []
  {
    hide BagAt, Consistent, Visible;
    var w := ScheduleWorld(bags, seen, score, n);
    ScheduleFrame(bags, seen, score, n, k);
    if b in w.labels[k] {
      var j :| 0 <= j < |w.labels[k]| && w.labels[k][j] == b;
      DetectionAt(w, k, j);
    }
  }

  function Late(): Bag { Rising(319.0, 461.0).(first := 1) }

  function Resting(): Bag { Bag(Box(510.0, 270.0, 610.0, 370.0), ORIGIN, 0) }

  /** The rising bag shows from frame 1 on and is missed in frame 3, when it goes over the line; another bag rests. */
  function MissedAtLine(): Schedule { (b, f) => b != 0 || f != 3 }

  function LateWorld(): World { ScheduleWorld([Late(), Resting()], MissedAtLine(), 0.9, 5) }

  lemma LateLanes()
    ensures OwnLanes(SHIPPED, [Late(), Resting()]) && SeenOften(SHIPPED.trackerMaxAge, [Late(), Resting()], MissedAtLine(), 5)
  {
    LateOverlaps();
    LateSeen();
    hide Iou, BagAt;
  }

  lemma LateOverlaps()
    ensures Iou(Late().box, BagAt(Late(), 2)) >= 0.25 && Iou(Resting().box, BagAt(Resting(), 1)) >= 0.25
  {
    RisingOverlap(319.0, 461.0);
    assert BagAt(Late(), 2) == BagAt(Rising(319.0, 461.0), 1);
    assert BagAt(Resting(), 1) == Resting().box;
    IouOneIff(Resting().box, Resting().box);
  }

  lemma LateSeen()
    ensures SeenOften(15, [Late(), Resting()], MissedAtLine(), 5)
  {
    var seen := MissedAtLine();
    forall b: nat, f: nat | b < 2 && f < 5 && f > [Late(), Resting()][b].first && seen(b, f)
      ensures SeenBefore(15, [Late(), Resting()][b].first, seen, b, f)
    {
      var e: nat := if b == 0 && f == 4 then 2 else f - 1;
      assert seen(b, e);
    }
  }

  lemma LateHeights()
    ensures BagHeight(SHIPPED, Thousand(), Late(), 1) == 9000.0
    ensures BagHeight(SHIPPED, Thousand(), Late(), 2) == 3000.0
    ensures BagHeight(SHIPPED, Thousand(), Late(), 4) == -9000.0
  {
    RisingHeight(319.0, 461.0, 0);
    RisingHeight(319.0, 461.0, 1);
    RisingHeight(319.0, 461.0, 3);
    assert forall f: int :: BagAt(Late(), f) == BagAt(Rising(319.0, 461.0), f - 1);
  }

  lemma LateSightings()
    requires Consistent(LateWorld())
    ensures SightingsOf(LateWorld(), 0, 5)
         == [Detection(BagAt(Late(), 1), 0.9), Detection(BagAt(Late(), 2), 0.9), Detection(BagAt(Late(), 4), 0.9)]
  {
    hide Consistent, BagAt, Visible, Show;
    var bags, seen := [Late(), Resting()], MissedAtLine();
    ScheduleSighting(bags, seen, 0.9, 5, 0, 0);
    ScheduleSighting(bags, seen, 0.9, 5, 0, 1);
    ScheduleSighting(bags, seen, 0.9, 5, 0, 2);
    ScheduleSighting(bags, seen, 0.9, 5, 0, 3);
    ScheduleSighting(bags, seen, 0.9, 5, 0, 4);
    assert SightingsOf(LateWorld(), 0, 0) == [];
  }

  lemma LateCountable()
    requires Consistent(LateWorld())
    ensures Countable(SHIPPED, Thousand(), LateWorld(), 0, 5)
  {
    LateSize();
    hide Consistent, BagAt, Height, LateWorld, SightingsOf, Thousand, Late;
    LateSightings();
    LateHeights();
    var h := Heights(SHIPPED, Thousand(), SightingsOf(LateWorld(), 0, 5));
    assert h == [9000.0, 3000.0, -9000.0];
  }

  lemma RestingNotCountable()
    requires Consistent(LateWorld())
    ensures !Countable(SHIPPED, Thousand(), LateWorld(), 1, 5)
  {
    hide Consistent, Passes, OffLine, InTime;
    if Passes(SHIPPED, Thousand(), LateWorld(), 1, 5) {
      PassingDescends(SHIPPED, Thousand(), LateWorld(), 1, 5);
      assert false;
    }
  }

  lemma LateFollowable()
    ensures Consistent(LateWorld()) && Followable(SHIPPED, LateWorld())
  {
    LateLanes();
    hide Consistent, Followable, SeenOften, OwnLanes, ScheduleWorld;
    ScheduleFollowable(SHIPPED, [Late(), Resting()], MissedAtLine(), 0.9, 5);
  }

  lemma OnlyLateCountable()
    requires Consistent(LateWorld())
    ensures CountableBags(SHIPPED, Thousand(), LateWorld()) == {0}
  {
    hide Consistent, Countable, LateWorld, Thousand, Late, Resting;
    LateSize();
    LateCountable();
    RestingNotCountable();
  }

  /** A bag that shows up late and is not seen in the very frame in which it goes over the line is counted; a bag that
      rests is not. */
  lemma LateAndMissedIsCounted(env: Env)
    requires env.settings == SHIPPED && env.geometry == Thousand()
    ensures Consistent(LateWorld()) && Followable(SHIPPED, LateWorld())
    ensures |LateWorld().labels| == 5 && Gap(LateWorld(), 0, 4) == 1
    ensures Run(env, LateWorld().frames).count == 1
  {
    LateFollowable();
    LateGap();
    hide Run, Consistent, Followable, CountableBags, LateWorld, Gap, Thousand;
    CountIsCountableBags(env, LateWorld());
    OnlyLateCountable();
  }

  lemma LateSize()
    ensures |LateWorld().frames| == 5 == |LateWorld().labels| && LateWorld().bags == [Late(), Resting()]
    ensures Late().first == 1 && Resting().first == 0
  {
  }

  lemma LateGap()
    ensures |LateWorld().labels| == 5 && Gap(LateWorld(), 0, 4) == 1
  {
    hide BagAt, Visible, Show;
    ScheduleFrame([Late(), Resting()], MissedAtLine(), 0.9, 5, 3);
    ScheduleFrame([Late(), Resting()], MissedAtLine(), 0.9, 5, 2);
    var w := LateWorld();
    assert 0 !in w.labels[3] && 0 in w.labels[2];
    assert Gap(w, 0, 4) == Gap(w, 0, 3) + 1;
  }
}
