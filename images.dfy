/**
 * Image lists of courts and facilities, and the pre-save rule both schemas
 * share: when more than one image is flagged primary, the first flagged one
 * keeps its flag and every later flag is cleared, in place.
 */
module Images {

  datatype Image = Image(url: string, caption: string, isPrimary: bool)

  /** `images.filter(img => img.isPrimary).length`. */
  function CountPrimary(s: seq<Image>): nat
  {
    if s == [] then 0 else (if s[0].isPrimary then 1 else 0) + CountPrimary(s[1..])
  }

  /** Some image before position k is flagged primary. */
  predicate PrimaryBefore(s: seq<Image>, k: nat)
    requires k <= |s|
  {
    exists j :: 0 <= j < k && s[j].isPrimary
  }

  function Unflag(img: Image): Image { img.(isPrimary := false) }

  /** Every flag cleared. */
  function ClearPrimaries(s: seq<Image>): (r: seq<Image>)
    ensures |r| == |s| && CountPrimary(r) == 0
  {
    if s == [] then [] else [Unflag(s[0])] + ClearPrimaries(s[1..])
  }

  /**
   * The list the pre-save hook leaves: the first primary image keeps its
   * flag, later ones lose it. Exactly one primary remains if there was any.
   */
  function KeepFirstPrimary(s: seq<Image>): (r: seq<Image>)
    ensures |r| == |s|
    ensures CountPrimary(r) == if CountPrimary(s) > 0 then 1 else 0
  {
    if s == [] then []
    else if s[0].isPrimary then [s[0]] + ClearPrimaries(s[1..])
    else [s[0]] + KeepFirstPrimary(s[1..])
  }

  lemma {:induction false} ClearPrimariesAt(s: seq<Image>, k: nat)
    requires k < |s|
    ensures ClearPrimaries(s)[k] == Unflag(s[k])
  {
    if k > 0 { ClearPrimariesAt(s[1..], k - 1); }
  }

  /**
   * Position by position: an image is unflagged exactly when it is primary
   * and some earlier image is primary; every other image is unchanged.
   */
  lemma {:induction false} KeepFirstPrimaryAt(s: seq<Image>, k: nat)
    requires k < |s|
    ensures KeepFirstPrimary(s)[k] ==
      if s[k].isPrimary && PrimaryBefore(s, k) then Unflag(s[k]) else s[k]
  {
    if k > 0 {
      var tail := s[1..];
      assert s[k] == tail[k - 1];
      if s[0].isPrimary {
        assert KeepFirstPrimary(s) == [s[0]] + ClearPrimaries(tail);
        ClearPrimariesAt(tail, k - 1);
        assert PrimaryBefore(s, k) by { assert s[0].isPrimary; }
        if !s[k].isPrimary { assert Unflag(s[k]) == s[k]; }
      } else {
        assert KeepFirstPrimary(s) == [s[0]] + KeepFirstPrimary(tail);
        KeepFirstPrimaryAt(tail, k - 1);
        PrimaryBeforeShift(s, k);
      }
    }
  }

  /** Past a first image that is not primary, "primary before k" is "primary before k - 1" in the rest. */
  lemma PrimaryBeforeShift(s: seq<Image>, k: nat)
    requires 0 < k <= |s| && !s[0].isPrimary
    ensures PrimaryBefore(s, k) <==> PrimaryBefore(s[1..], k - 1)
  {
    if PrimaryBefore(s, k) {
      var j :| 0 <= j < k && s[j].isPrimary;
      assert s[1..][j - 1].isPrimary;
    }
    if PrimaryBefore(s[1..], k - 1) {
      var j :| 0 <= j < k - 1 && s[1..][j].isPrimary;
      assert s[j + 1].isPrimary;
    }
  }

  /** The first primary image keeps its flag. */
  lemma FirstPrimaryKept(s: seq<Image>, k: nat)
    requires k < |s| && s[k].isPrimary && !PrimaryBefore(s, k)
    ensures KeepFirstPrimary(s)[k] == s[k] && KeepFirstPrimary(s)[k].isPrimary
  {
    KeepFirstPrimaryAt(s, k);
  }

  lemma {:induction false} ClearPrimariesNoOp(s: seq<Image>)
    requires CountPrimary(s) == 0
    ensures ClearPrimaries(s) == s
  {
    if s != [] { ClearPrimariesNoOp(s[1..]); }
  }

  /** A list with at most one primary image is left as it is. */
  lemma {:induction false} KeepFirstPrimaryNoOp(s: seq<Image>)
    requires CountPrimary(s) <= 1
    ensures KeepFirstPrimary(s) == s
  {
    if s != [] {
      if s[0].isPrimary {
        ClearPrimariesNoOp(s[1..]);
      } else {
        KeepFirstPrimaryNoOp(s[1..]);
      }
    }
  }

  /** Running the hook twice is the same as running it once. */
  lemma KeepFirstPrimaryIdempotent(s: seq<Image>)
    ensures KeepFirstPrimary(KeepFirstPrimary(s)) == KeepFirstPrimary(s)
  {
    KeepFirstPrimaryNoOp(KeepFirstPrimary(s));
  }

  lemma PrimaryBeforeStep(s: seq<Image>, i: nat)
    requires i < |s|
    ensures PrimaryBefore(s, i + 1) <==> PrimaryBefore(s, i) || s[i].isPrimary
  {
    if PrimaryBefore(s, i + 1) && !s[i].isPrimary {
      var j :| 0 <= j < i + 1 && s[j].isPrimary;
      assert j < i;
    }
  }

  /**
   * The pre-save hook, in place: when more than one image is primary, walk
   * the list with a `foundPrimary` flag and clear every primary after the first.
   */
  method NormalizePrimary(images: array<Image>)
    modifies images
    ensures images[..] == KeepFirstPrimary(old(images[..]))
  {
    ghost var s := images[..];
    ghost var r := KeepFirstPrimary(s);
    if images.Length > 0 && CountPrimary(images[..]) > 1 {
      var foundPrimary := false;
      for i := 0 to images.Length
        invariant foundPrimary == PrimaryBefore(s, i)
        invariant images[..i] == r[..i]
        invariant images[i..] == s[i..]
      {
        KeepFirstPrimaryAt(s, i);
        PrimaryBeforeStep(s, i);
        ghost var prev := images[..];
        assert images[i] == s[i];
        if images[i].isPrimary && !foundPrimary {
          foundPrimary := true;
        } else if images[i].isPrimary {
          images[i] := Unflag(images[i]);
        }
        assert images[..] == prev[i := r[i]];
        StepSlices(prev, r, s, i);
      }
      assert images[..] == images[..images.Length];
    } else {
      KeepFirstPrimaryNoOp(s);
    }
  }

  /** One step of a left-to-right rewrite: the prefix agrees with `r` one position further, the suffix with `s` one position later. */
  lemma StepSlices<T>(a: seq<T>, r: seq<T>, s: seq<T>, i: nat)
    requires |a| == |r| == |s| && i < |a|
    requires a[..i] == r[..i] && a[i..] == s[i..]
    ensures a[i := r[i]][..i + 1] == r[..i + 1] && a[i := r[i]][i + 1..] == s[i + 1..]
  {
    var a' := a[i := r[i]];
    assert a'[..i + 1] == a[..i] + [r[i]];
    assert r[..i + 1] == r[..i] + [r[i]];
    assert a'[i + 1..] == a[i..][1..];
  }
}
