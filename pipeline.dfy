/**
 * `enhance_photo`: look up the profile, open the image, run the profile's
 * non-zero stages in a fixed order, and save the result.
 */
module Pipeline {
  import opened Wrappers
  import opened Images
  import opened Profiles
  import opened Files
  import Adjustments

  /** The seven adjustments, in the order the enhancer applies them. */
  datatype Stage = Hdr | Brightness | Contrast | WhitePoint | Shadows | Saturation | Warmth

  const StageOrder: seq<Stage> := [Hdr, Brightness, Contrast, WhitePoint, Shadows, Saturation, Warmth]

  /** The position of a stage in the fixed order. */
  function Rank(s: Stage): (n: nat)
    ensures n < |StageOrder| && StageOrder[n] == s
  {
    match s
    case Hdr => 0
    case Brightness => 1
    case Contrast => 2
    case WhitePoint => 3
    case Shadows => 4
    case Saturation => 5
    case Warmth => 6
  }

  /** The profile field that parameterises a stage. */
  function Setting(p: Profile, s: Stage): int {
    match s
    case Hdr => p.hdr
    case Brightness => p.brightness
    case Contrast => p.contrast
    case WhitePoint => p.whitePoint
    case Shadows => p.shadows
    case Saturation => p.saturation
    case Warmth => p.warmth
  }

  /** A stage with its setting, as one step of a plan. */
  type Step = (Stage, int)

  /** Whether the stages appear in the fixed order. */
  predicate Ascending(stages: seq<Stage>) {
    forall i, j :: 0 <= i < j < |stages| ==> Rank(stages[i]) < Rank(stages[j])
  }

  /** The step for stage `s`, or none when its setting is 0. */
  function Keep(p: Profile, s: Stage): seq<Step> {
    if Setting(p, s) == 0 then [] else [(s, Setting(p, s))]
  }

  /** The steps of `p` for the given stages, in the given order, skipping zero settings. */
  function Select(p: Profile, stages: seq<Stage>): (steps: seq<Step>)
    ensures |steps| <= |stages|
    ensures forall i :: 0 <= i < |steps| ==> steps[i].1 != 0
  {
    if stages == [] then []
    else Select(p, stages[..|stages| - 1]) + Keep(p, stages[|stages| - 1])
  }

  /** The steps `enhance_photo` runs for profile `p`. */
  function Plan(p: Profile): (plan: seq<Step>)
    ensures |plan| <= |StageOrder|
    ensures forall i :: 0 <= i < |plan| ==> plan[i].1 != 0
  {
    Select(p, StageOrder)
  }

  /** Selecting keeps only given stages with a non-zero setting, each paired with its setting. */
  lemma {:induction false} SelectSound(p: Profile, stages: seq<Stage>)
    ensures forall i :: 0 <= i < |Select(p, stages)| ==>
      Select(p, stages)[i].0 in stages && Select(p, stages)[i].1 == Setting(p, Select(p, stages)[i].0) &&
      Select(p, stages)[i].1 != 0
  {
    if stages != [] {
      var init := stages[..|stages| - 1];
      SelectSound(p, init);
      var earlier: seq<Step>, last: seq<Step> := Select(p, init), Keep(p, stages[|stages| - 1]);
      assert Select(p, stages) == earlier + last;
      forall i | 0 <= i < |earlier| ensures (earlier + last)[i].0 in stages {
        assert (earlier + last)[i] == earlier[i];
        assert earlier[i].0 in init;
      }
    }
  }

  /** Selecting keeps every given stage whose setting is non-zero. */
  lemma {:induction false} SelectComplete(p: Profile, stages: seq<Stage>)
    ensures forall s :: s in stages && Setting(p, s) != 0 ==>
      exists i :: 0 <= i < |Select(p, stages)| && Select(p, stages)[i].0 == s
  {
    if stages != [] {
      var init := stages[..|stages| - 1];
      SelectComplete(p, init);
      var earlier: seq<Step>, last: seq<Step> := Select(p, init), Keep(p, stages[|stages| - 1]);
      assert Select(p, stages) == earlier + last;
      forall s | s in stages && Setting(p, s) != 0
        ensures exists i :: 0 <= i < |earlier + last| && (earlier + last)[i].0 == s
      {
        if s == stages[|stages| - 1] {
          assert (earlier + last)[|earlier|].0 == s;
        } else {
          assert s in init by {
            var k :| 0 <= k < |stages| && stages[k] == s;
            assert init[k] == s;
          }
          var i :| 0 <= i < |earlier| && earlier[i].0 == s;
          assert (earlier + last)[i].0 == s;
        }
      }
    }
  }

  /** Selecting from stages in the fixed order gives steps in the fixed order. */
  lemma {:induction false} SelectOrdered(p: Profile, stages: seq<Stage>)
    requires Ascending(stages)
    ensures forall i, j :: 0 <= i < j < |Select(p, stages)| ==>
      Rank(Select(p, stages)[i].0) < Rank(Select(p, stages)[j].0)
  {
    if stages != [] {
      var init, s := stages[..|stages| - 1], stages[|stages| - 1];
      assert Ascending(init) by {
        forall i, j | 0 <= i < j < |init| ensures Rank(init[i]) < Rank(init[j]) {
          assert init[i] == stages[i] && init[j] == stages[j];
        }
      }
      SelectOrdered(p, init);
      SelectSound(p, init);
      var earlier: seq<Step>, last: seq<Step> := Select(p, init), Keep(p, s);
      assert Select(p, stages) == earlier + last;
      forall k | 0 <= k < |earlier| ensures Rank(earlier[k].0) < Rank(s) {
        var m :| 0 <= m < |init| && init[m] == earlier[k].0;
        assert stages[m] == earlier[k].0;
      }
    }
  }

  /**
   * The plan of `p` holds exactly the stages whose setting is non-zero,
   * each with its setting, in the order HDR, brightness, contrast, white
   * point, shadows, saturation, warmth.
   */
  lemma PlanSpec(p: Profile)
    ensures var plan := Plan(p);
      && (forall i :: 0 <= i < |plan| ==> plan[i].1 == Setting(p, plan[i].0) && plan[i].1 != 0)
      && (forall s :: Setting(p, s) != 0 ==> exists i :: 0 <= i < |plan| && plan[i].0 == s)
      && (forall i, j :: 0 <= i < j < |plan| ==> Rank(plan[i].0) < Rank(plan[j].0))
  {
    var plan := Select(p, StageOrder);
    assert Plan(p) == plan;
    StageOrderFacts();
    SelectSound(p, StageOrder);
    SelectComplete(p, StageOrder);
    SelectOrdered(p, StageOrder);
    assert forall i :: 0 <= i < |plan| ==> plan[i].1 == Setting(p, plan[i].0) && plan[i].1 != 0;
  }

  /** The fixed order lists every stage, by increasing rank. */
  lemma StageOrderFacts()
    ensures Ascending(StageOrder)
    ensures forall s :: s in StageOrder
  {
    forall s ensures s in StageOrder { assert StageOrder[Rank(s)] == s; }
    assert Rank(StageOrder[0]) == 0 && Rank(StageOrder[1]) == 1 && Rank(StageOrder[2]) == 2;
    assert Rank(StageOrder[3]) == 3 && Rank(StageOrder[4]) == 4 && Rank(StageOrder[5]) == 5;
    assert Rank(StageOrder[6]) == 6;
    forall i | 0 <= i < |StageOrder| ensures Rank(StageOrder[i]) == i {
      if i == 0 {} else if i == 1 {} else if i == 2 {} else if i == 3 {} else if i == 4 {} else if i == 5 {}
    }
  }

  /** The plan is the seven optional steps one after the other. */
  lemma PlanSteps(p: Profile)
    ensures Plan(p) == Keep(p, Hdr) + Keep(p, Brightness) + Keep(p, Contrast) + Keep(p, WhitePoint)
                       + Keep(p, Shadows) + Keep(p, Saturation) + Keep(p, Warmth)
  {
    var k7, k6, k5, k4 := Keep(p, Warmth), Keep(p, Saturation), Keep(p, Shadows), Keep(p, WhitePoint);
    var k3, k2, k1 := Keep(p, Contrast), Keep(p, Brightness), Keep(p, Hdr);
    var s := StageOrder;
    assert s[..1] == [Hdr] && s[..1][..0] == [];
    assert Select(p, s[..1]) == k1;
    assert s[..2][..1] == s[..1] && s[..2][1] == Brightness;
    assert Select(p, s[..2]) == k1 + k2;
    assert s[..3][..2] == s[..2] && s[..3][2] == Contrast;
    assert Select(p, s[..3]) == k1 + k2 + k3;
    assert s[..4][..3] == s[..3] && s[..4][3] == WhitePoint;
    assert Select(p, s[..4]) == k1 + k2 + k3 + k4;
    assert s[..5][..4] == s[..4] && s[..5][4] == Shadows;
    assert Select(p, s[..5]) == k1 + k2 + k3 + k4 + k5;
    assert s[..6][..5] == s[..5] && s[..6][5] == Saturation;
    assert Select(p, s[..6]) == k1 + k2 + k3 + k4 + k5 + k6;
    assert s[..6] == s[..|s| - 1] && s[6] == Warmth;
  }

  /** Vibrant runs HDR, brightness, contrast and saturation, in that order. */
  lemma VibrantPlan()
    ensures Plan(Vibrant) == [(Hdr, 50), (Brightness, 8), (Contrast, 15), (Saturation, 40)]
  {
    PlanSteps(Vibrant);
    assert Keep(Vibrant, Hdr) == [(Hdr, 50)];
    var s0 := Keep(Vibrant, Hdr);
    assert Keep(Vibrant, Brightness) == [(Brightness, 8)];
    var s1 := s0 + Keep(Vibrant, Brightness);
    assert s1 == [(Hdr, 50), (Brightness, 8)];
    assert Keep(Vibrant, Contrast) == [(Contrast, 15)];
    var s2 := s1 + Keep(Vibrant, Contrast);
    assert s2 == [(Hdr, 50), (Brightness, 8), (Contrast, 15)];
    assert Keep(Vibrant, WhitePoint) == [];
    var s3 := s2 + Keep(Vibrant, WhitePoint);
    assert s3 == [(Hdr, 50), (Brightness, 8), (Contrast, 15)];
    assert Keep(Vibrant, Shadows) == [];
    var s4 := s3 + Keep(Vibrant, Shadows);
    assert s4 == [(Hdr, 50), (Brightness, 8), (Contrast, 15)];
    assert Keep(Vibrant, Saturation) == [(Saturation, 40)];
    var s5 := s4 + Keep(Vibrant, Saturation);
    assert s5 == [(Hdr, 50), (Brightness, 8), (Contrast, 15), (Saturation, 40)];
    assert Keep(Vibrant, Warmth) == [];
    var s6 := s5 + Keep(Vibrant, Warmth);
    assert s6 == [(Hdr, 50), (Brightness, 8), (Contrast, 15), (Saturation, 40)];
  }

  /** Portrait runs HDR, brightness, shadows, saturation and warmth, in that order. */
  lemma PortraitPlan()
    ensures Plan(Portrait) == [(Hdr, 20), (Brightness, 12), (Shadows, 30), (Saturation, 10), (Warmth, 15)]
  {
    PlanSteps(Portrait);
    assert Keep(Portrait, Hdr) == [(Hdr, 20)];
    var s0 := Keep(Portrait, Hdr);
    assert Keep(Portrait, Brightness) == [(Brightness, 12)];
    var s1 := s0 + Keep(Portrait, Brightness);
    assert s1 == [(Hdr, 20), (Brightness, 12)];
    assert Keep(Portrait, Contrast) == [];
    var s2 := s1 + Keep(Portrait, Contrast);
    assert s2 == [(Hdr, 20), (Brightness, 12)];
    assert Keep(Portrait, WhitePoint) == [];
    var s3 := s2 + Keep(Portrait, WhitePoint);
    assert s3 == [(Hdr, 20), (Brightness, 12)];
    assert Keep(Portrait, Shadows) == [(Shadows, 30)];
    var s4 := s3 + Keep(Portrait, Shadows);
    assert s4 == [(Hdr, 20), (Brightness, 12), (Shadows, 30)];
    assert Keep(Portrait, Saturation) == [(Saturation, 10)];
    var s5 := s4 + Keep(Portrait, Saturation);
    assert s5 == [(Hdr, 20), (Brightness, 12), (Shadows, 30), (Saturation, 10)];
    assert Keep(Portrait, Warmth) == [(Warmth, 15)];
    var s6 := s5 + Keep(Portrait, Warmth);
    assert s6 == [(Hdr, 20), (Brightness, 12), (Shadows, 30), (Saturation, 10), (Warmth, 15)];
  }

  /** HDR_Boost runs all seven stages. */
  lemma HdrBoostPlan()
    ensures Plan(HdrBoost) ==
      [(Hdr, 100), (Brightness, 10), (Contrast, 10), (WhitePoint, 5), (Shadows, 25), (Saturation, 25), (Warmth, 10)]
  {
    PlanSteps(HdrBoost);
    assert Keep(HdrBoost, Hdr) == [(Hdr, 100)];
    var s0 := Keep(HdrBoost, Hdr);
    assert Keep(HdrBoost, Brightness) == [(Brightness, 10)];
    var s1 := s0 + Keep(HdrBoost, Brightness);
    assert s1 == [(Hdr, 100), (Brightness, 10)];
    assert Keep(HdrBoost, Contrast) == [(Contrast, 10)];
    var s2 := s1 + Keep(HdrBoost, Contrast);
    assert s2 == [(Hdr, 100), (Brightness, 10), (Contrast, 10)];
    assert Keep(HdrBoost, WhitePoint) == [(WhitePoint, 5)];
    var s3 := s2 + Keep(HdrBoost, WhitePoint);
    assert s3 == [(Hdr, 100), (Brightness, 10), (Contrast, 10), (WhitePoint, 5)];
    assert Keep(HdrBoost, Shadows) == [(Shadows, 25)];
    var s4 := s3 + Keep(HdrBoost, Shadows);
    assert s4 == [(Hdr, 100), (Brightness, 10), (Contrast, 10), (WhitePoint, 5), (Shadows, 25)];
    assert Keep(HdrBoost, Saturation) == [(Saturation, 25)];
    var s5 := s4 + Keep(HdrBoost, Saturation);
    assert s5 == [(Hdr, 100), (Brightness, 10), (Contrast, 10), (WhitePoint, 5), (Shadows, 25), (Saturation, 25)];
    assert Keep(HdrBoost, Warmth) == [(Warmth, 10)];
    var s6 := s5 + Keep(HdrBoost, Warmth);
    assert s6 == [(Hdr, 100), (Brightness, 10), (Contrast, 10), (WhitePoint, 5), (Shadows, 25), (Saturation, 25), (Warmth, 10)];
  }

  /** Natural_Enhance runs every stage but white point and shadows. */
  lemma NaturalEnhancePlan()
    ensures Plan(NaturalEnhance) ==
      [(Hdr, 30), (Brightness, 5), (Contrast, 5), (Saturation, 15), (Warmth, 5)]
  {
    PlanSteps(NaturalEnhance);
    assert Keep(NaturalEnhance, Hdr) == [(Hdr, 30)];
    var s0 := Keep(NaturalEnhance, Hdr);
    assert Keep(NaturalEnhance, Brightness) == [(Brightness, 5)];
    var s1 := s0 + Keep(NaturalEnhance, Brightness);
    assert s1 == [(Hdr, 30), (Brightness, 5)];
    assert Keep(NaturalEnhance, Contrast) == [(Contrast, 5)];
    var s2 := s1 + Keep(NaturalEnhance, Contrast);
    assert s2 == [(Hdr, 30), (Brightness, 5), (Contrast, 5)];
    assert Keep(NaturalEnhance, WhitePoint) == [];
    var s3 := s2 + Keep(NaturalEnhance, WhitePoint);
    assert s3 == [(Hdr, 30), (Brightness, 5), (Contrast, 5)];
    assert Keep(NaturalEnhance, Shadows) == [];
    var s4 := s3 + Keep(NaturalEnhance, Shadows);
    assert s4 == [(Hdr, 30), (Brightness, 5), (Contrast, 5)];
    assert Keep(NaturalEnhance, Saturation) == [(Saturation, 15)];
    var s5 := s4 + Keep(NaturalEnhance, Saturation);
    assert s5 == [(Hdr, 30), (Brightness, 5), (Contrast, 5), (Saturation, 15)];
    assert Keep(NaturalEnhance, Warmth) == [(Warmth, 5)];
    var s6 := s5 + Keep(NaturalEnhance, Warmth);
    assert s6 == [(Hdr, 30), (Brightness, 5), (Contrast, 5), (Saturation, 15), (Warmth, 5)];
  }

  /** One stage applied with its setting. */
  function RunStage(tk: Adjustments.Toolkit, step: Step, img: Image): (out: Image)
    ensures Adjustments.WellBehaved(tk) && Valid(img) ==> Valid(out) && SameShape(out, img)
  {
    var (stage, value) := step;
    match stage
    case Hdr => Adjustments.ApplyHdr(tk, img, value)
    case Brightness => Adjustments.ApplyBrightness(tk, img, value)
    case Contrast => Adjustments.ApplyContrast(tk, img, value)
    case WhitePoint => Adjustments.ToneAdjust(Adjustments.Highlights, img, value)
    case Shadows => Adjustments.ToneAdjust(Adjustments.Shadows, img, value)
    case Saturation => Adjustments.ApplySaturation(tk, img, value)
    case Warmth => Adjustments.Warmth(img, value)
  }

  /** The steps of a plan applied one after the other, each to the previous one's result. */
  function RunPlan(tk: Adjustments.Toolkit, plan: seq<Step>, img: Image): (out: Image)
    ensures Adjustments.WellBehaved(tk) && Valid(img) ==> Valid(out) && SameShape(out, img)
    ensures plan == [] ==> out == img
  {
    if plan == [] then img else RunPlan(tk, plan[1..], RunStage(tk, plan[0], img))
  }

  /** Running one more step runs it on the result of the others. */
  lemma {:induction false} RunPlanSnoc(tk: Adjustments.Toolkit, plan: seq<Step>, step: Step, img: Image)
    ensures RunPlan(tk, plan + [step], img) == RunStage(tk, step, RunPlan(tk, plan, img))
  {
    if plan == [] {
      assert [step][1..] == [];
    } else {
      assert (plan + [step])[1..] == plan[1..] + [step];
      RunPlanSnoc(tk, plan[1..], step, RunStage(tk, plan[0], img));
    }
  }

  /** What `enhance_photo` writes for profile `p` and the opened image `img`. */
  function Enhanced(tk: Adjustments.Toolkit, p: Profile, img: Image): (out: Image)
    ensures Adjustments.WellBehaved(tk) && Valid(img) ==> Valid(out) && SameShape(out, img)
  {
    RunPlan(tk, Plan(p), img)
  }

  /**
   * The adjustment part of `enhance_photo`: `img` is reassigned by every
   * stage whose setting is non-zero, in the fixed order.
   */
  method EnhanceImage(tk: Adjustments.Toolkit, p: Profile, img: Image) returns (out: Image)
    ensures out == Enhanced(tk, p, img)
  {
    out := img;
    ghost var i0 := out;
    if p.hdr != 0 {
      out := Adjustments.ApplyHdr(tk, out, p.hdr);
    }
    ghost var i1 := out;
    if p.brightness != 0 {
      out := Adjustments.ApplyBrightness(tk, out, p.brightness);
    }
    ghost var i2 := out;
    if p.contrast != 0 {
      out := Adjustments.ApplyContrast(tk, out, p.contrast);
    }
    ghost var i3 := out;
    if p.whitePoint != 0 {
      out := Adjustments.ApplyTone(Adjustments.Highlights, out, p.whitePoint);
    }
    ghost var i4 := out;
    if p.shadows != 0 {
      out := Adjustments.ApplyTone(Adjustments.Shadows, out, p.shadows);
    }
    ghost var i5 := out;
    if p.saturation != 0 {
      out := Adjustments.ApplySaturation(tk, out, p.saturation);
    }
    ghost var i6 := out;
    if p.warmth != 0 {
      out := Adjustments.ApplyWarmth(out, p.warmth);
    }
    Chain(tk, p, i0, i1, i2, i3, i4, i5, i6, out);
  }

  /** Whether `after` is what stage `s` of `p` makes of `before`: the stage applied, or nothing when its setting is 0. */
  predicate Stepped(tk: Adjustments.Toolkit, p: Profile, s: Stage, before: Image, after: Image) {
    after == if Setting(p, s) != 0 then RunStage(tk, (s, Setting(p, s)), before) else before
  }

  /** Eight images, each what the next stage makes of the one before, end in the enhanced image. */
  lemma Chain(tk: Adjustments.Toolkit, p: Profile,
              i0: Image, i1: Image, i2: Image, i3: Image, i4: Image, i5: Image, i6: Image, i7: Image)
    requires Stepped(tk, p, Hdr, i0, i1) && Stepped(tk, p, Brightness, i1, i2)
    requires Stepped(tk, p, Contrast, i2, i3) && Stepped(tk, p, WhitePoint, i3, i4)
    requires Stepped(tk, p, Shadows, i4, i5) && Stepped(tk, p, Saturation, i5, i6)
    requires Stepped(tk, p, Warmth, i6, i7)
    ensures i7 == Enhanced(tk, p, i0)
  {
    Advance(tk, p, Hdr, i0, [], i0, i1);
    var done := Keep(p, Hdr);
    assert [] + Keep(p, Hdr) == done;
    Advance(tk, p, Brightness, i0, done, i1, i2);
    done := done + Keep(p, Brightness);
    Advance(tk, p, Contrast, i0, done, i2, i3);
    done := done + Keep(p, Contrast);
    Advance(tk, p, WhitePoint, i0, done, i3, i4);
    done := done + Keep(p, WhitePoint);
    Advance(tk, p, Shadows, i0, done, i4, i5);
    done := done + Keep(p, Shadows);
    Advance(tk, p, Saturation, i0, done, i5, i6);
    done := done + Keep(p, Saturation);
    Advance(tk, p, Warmth, i0, done, i6, i7);
    PlanSteps(p);
  }

  /** A stage that ran when its setting is non-zero, and did nothing otherwise, extends the plan run so far. */
  lemma Advance(tk: Adjustments.Toolkit, p: Profile, s: Stage, img: Image, done: seq<Step>, before: Image, after: Image)
    requires before == RunPlan(tk, done, img)
    requires Stepped(tk, p, s, before, after)
    ensures after == RunPlan(tk, done + Keep(p, s), img)
  {
    if Setting(p, s) != 0 {
      RunPlanSnoc(tk, done, (s, Setting(p, s)), img);
    } else {
      assert done + Keep(p, s) == done;
    }
  }

  /** Why `enhance_photo` raised. */
  datatype PhotoError = UnknownProfile(name: string) | OpenFailed(src: Path) | SaveFailed(dst: Path)

  /**
   * The actions `enhance_photo` takes once the profile is known: open, then
   * save if the open worked, each with its outcome.
   */
  function PhotoLog(fs: FileSystem, tk: Adjustments.Toolkit, p: Profile, src: Path, dst: Path): (log: seq<Effect>)
    ensures |log| >= 1 && log[0] == Open(src, fs.open(src).Some?)
    ensures |log| == 2 <==> fs.open(src).Some?
    ensures |log| <= 2
    ensures |log| == 2 ==> log[1].Save? && log[1].dst == dst && log[1].written == fs.save(dst, log[1].img)
    ensures |log| == 2 && Adjustments.WellBehaved(tk) && Valid(fs.open(src).value) ==>
      Valid(log[1].img) && SameShape(log[1].img, fs.open(src).value)
  {
    match fs.open(src)
    case None => [Open(src, false)]
    case Some(img) =>
      var out := Enhanced(tk, p, img);
      [Open(src, true), Save(dst, out, fs.save(dst, out))]
  }

  /** The photo succeeds exactly when its log ends in a save recorded as successful. */
  lemma PhotoLogOutcome(fs: FileSystem, tk: Adjustments.Toolkit, p: Profile, src: Path, dst: Path)
    ensures var log := PhotoLog(fs, tk, p, src, dst);
      PhotoSucceeds(fs, tk, p, src, dst) <==> |log| == 2 && log[1].written
  {
  }

  /** Whether `enhance_photo` returns without raising once the profile is known. */
  predicate PhotoSucceeds(fs: FileSystem, tk: Adjustments.Toolkit, p: Profile, src: Path, dst: Path) {
    match fs.open(src)
    case None => false
    case Some(img) => fs.save(dst, Enhanced(tk, p, img))
  }

  /**
   * `enhance_photo(src, dst, profileName)`.  An unknown profile raises
   * before the image is opened; an image that cannot be opened is never
   * saved; what is saved is the enhanced opened image.
   */
  method EnhancePhoto(fs: FileSystem, tk: Adjustments.Toolkit, src: Path, dst: Path, profileName: string)
    returns (r: Outcome<PhotoError>, log: seq<Effect>)
    ensures !Known(profileName) ==> r == Fail(UnknownProfile(profileName)) && log == []
    ensures Known(profileName) ==> log == PhotoLog(fs, tk, Catalog[profileName], src, dst)
    ensures Known(profileName) ==> (r.Pass? <==> PhotoSucceeds(fs, tk, Catalog[profileName], src, dst))
    ensures Known(profileName) && fs.open(src).None? ==> r == Fail(OpenFailed(src))
    ensures Known(profileName) && fs.open(src).Some? && r.Fail? ==> r == Fail(SaveFailed(dst))
  {
    if profileName !in Catalog {
      return Fail(UnknownProfile(profileName)), [];
    }
    var profile := Catalog[profileName];
    var loaded := fs.open(src);
    log := [Open(src, loaded.Some?)];
    if loaded.None? {
      return Fail(OpenFailed(src)), log;
    }
    var img := EnhanceImage(tk, profile, loaded.value);
    var saved := fs.save(dst, img);
    log := log + [Save(dst, img, saved)];
    if !saved {
      return Fail(SaveFailed(dst)), log;
    }
    r := Pass;
  }
}
