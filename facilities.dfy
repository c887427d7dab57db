/**
 * A sports facility document: its address virtual, the running rating
 * average kept by `updateRating`, and the pre-save hook that leaves at most
 * one primary image.
 */
module Facilities {
  import opened Numbers
  import opened Images

  /** The bounds the schema puts on `rating.average`. */
  const MinAverage: real := 0.0
  const MaxAverage: real := 5.0

  predicate AllWithin(s: seq<real>, lo: real, hi: real)
  {
    forall i :: 0 <= i < |s| ==> lo <= s[i] <= hi
  }

  class Facility {
    var street: string
    var city: string
    var state: string
    var zipCode: string
    var ratingAverage: real
    var ratingCount: nat
    var images: array<Image>
    /** Every rating folded in so far, in order. */
    ghost var ratings: seq<real>

    /** The stored average is the mean of the ratings folded in, and the count is how many there were. */
    ghost predicate Valid()
      reads this
    {
      ratingCount == |ratings| && ratingAverage == Mean(ratings)
    }

    constructor (street: string, city: string, state: string, zipCode: string, images: seq<Image>)
      ensures Valid() && ratings == [] && ratingAverage == 0.0 && ratingCount == 0
      ensures this.street == street && this.city == city && this.state == state && this.zipCode == zipCode
      ensures fresh(this.images) && this.images[..] == images
    {
      this.street := street;
      this.city := city;
      this.state := state;
      this.zipCode := zipCode;
      ratingAverage := 0.0;
      ratingCount := 0;
      ratings := [];
      this.images := new Image[|images|](i requires 0 <= i < |images| => images[i]);
    }

    /** `street, city, state zipCode`. */
    function FullAddress(): (r: string)
      reads this
      ensures |r| == |street| + |city| + |state| + |zipCode| + 5
      ensures r[..|street|] == street
      ensures r[|street|..|street| + 2] == ", "
      ensures r[|street| + 2..|street| + 2 + |city|] == city
      ensures r[|street| + 2 + |city|..|street| + 4 + |city|] == ", "
      ensures r[|street| + 4 + |city|..|street| + 4 + |city| + |state|] == state
      ensures r[|street| + 4 + |city| + |state|] == ' '
      ensures r[|r| - |zipCode|..] == zipCode
    {
      street + ", " + city + ", " + state + " " + zipCode
    }

    /**
     * `updateRating`: fold one rating into the running average, then save.
     * The save succeeds exactly when the new average is within the schema's
     * bounds, which it always is when every rating so far was; validation
     * runs first, so the pre-save image hook runs only on a save that succeeds.
     */
    method UpdateRating(newRating: real) returns (saved: bool)
      requires Valid()
      modifies this, images
      ensures Valid()
      ensures ratings == old(ratings) + [newRating]
      ensures ratingCount == old(ratingCount) + 1
      ensures ratingAverage == (old(ratingAverage) * (old(ratingCount) as real) + newRating) / (ratingCount as real)
      ensures saved <==> MinAverage <= ratingAverage <= MaxAverage
      ensures AllWithin(old(ratings), MinAverage, MaxAverage) && MinAverage <= newRating <= MaxAverage ==> saved
      ensures street == old(street) && city == old(city) && state == old(state) && zipCode == old(zipCode)
      ensures images == old(images)
      ensures saved ==> images[..] == KeepFirstPrimary(old(images[..]))
      ensures !saved ==> images[..] == old(images[..])
    {
      var totalRating := ratingAverage * (ratingCount as real) + newRating;
      RunningMean(ratings, newRating);
      ratingCount := ratingCount + 1;
      ratingAverage := totalRating / (ratingCount as real);
      ratings := ratings + [newRating];
      if AllWithin(ratings, MinAverage, MaxAverage) {
        MeanBounds(ratings, MinAverage, MaxAverage);
      }
      saved := MinAverage <= ratingAverage <= MaxAverage;
      if saved {
        PreSave();
      }
    }

    /** The pre-save hook: when more than one image is primary, only the first stays primary. */
    method PreSave()
      modifies images
      ensures images[..] == KeepFirstPrimary(old(images[..]))
      ensures CountPrimary(images[..]) <= 1
      ensures CountPrimary(old(images[..])) <= 1 ==> images[..] == old(images[..])
    {
      ghost var before := images[..];
      NormalizePrimary(images);
      if CountPrimary(before) <= 1 {
        KeepFirstPrimaryNoOp(before);
      }
    }
  }
}
