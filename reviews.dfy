/**
 * A review document: its field bounds, the helpful-vote list with its
 * counter, the one-pending-flag-per-user rule, the category average
 * virtual, and the rating summary the save and remove hooks write back to
 * the reviewed facility or court.
 */
module Reviews {
  import opened Wrappers
  import opened Numbers

  const MinRating: real := 1.0
  const MaxRating: real := 5.0
  const MaxTitleLength: nat := 100
  const MaxCommentLength: nat := 1000
  /** cleanliness, facilities, service, value, location */
  const CategoryCount: nat := 5

  datatype ReviewStatus = ReviewPending | Approved | Rejected
  datatype FlagReason = Inappropriate | Spam | Fake | Offensive | OtherReason
  datatype FlagStatus = FlagPending | FlagReviewed | FlagResolved
  datatype Flag = Flag(reason: FlagReason, reportedBy: nat, reportedAt: int, status: FlagStatus)

  /** The five category scores; an absent score is `None`. */
  type Categories = s: seq<Option<real>> | |s| == CategoryCount
    witness [None, None, None, None, None]

  /** The schema's validators on the rating, the title, the comment and the category scores. */
  predicate WithinSchema(rating: real, title: string, comment: string, categories: Categories)
  {
    && MinRating <= rating <= MaxRating
    && |title| <= MaxTitleLength && |comment| <= MaxCommentLength
    && forall i :: 0 <= i < |categories| && categories[i].Some? ==> MinRating <= categories[i].value <= MaxRating
  }

  /** The scores that are present, in order. */
  function Defined(categories: seq<Option<real>>): (r: seq<real>)
    ensures |r| <= |categories|
  {
    if categories == [] then []
    else (if categories[0].Some? then [categories[0].value] else []) + Defined(categories[1..])
  }

  lemma {:induction false} DefinedWithin(categories: seq<Option<real>>, lo: real, hi: real)
    requires forall i :: 0 <= i < |categories| && categories[i].Some? ==> lo <= categories[i].value <= hi
    ensures forall i :: 0 <= i < |Defined(categories)| ==> lo <= Defined(categories)[i] <= hi
  {
    if categories != [] {
      DefinedWithin(categories[1..], lo, hi);
    }
  }

  /** `averageCategoryRating`: the overall rating when no score is present, else the mean of the scores present. */
  function AverageCategoryRating(rating: real, categories: Categories): (r: real)
    ensures |Defined(categories)| == 0 ==> r == rating
    ensures |Defined(categories)| > 0 ==> r * (|Defined(categories)| as real) == Sum(Defined(categories))
  {
    var scores := Defined(categories);
    MeanTimesCount(scores);
    if |scores| == 0 then rating else Mean(scores)
  }

  /** For a review within the schema, the category average is itself a valid rating. */
  lemma AverageCategoryRatingWithinBounds(rating: real, title: string, comment: string, categories: Categories)
    requires WithinSchema(rating, title, comment, categories)
    ensures MinRating <= AverageCategoryRating(rating, categories) <= MaxRating
  {
    var scores := Defined(categories);
    if |scores| > 0 {
      DefinedWithin(categories, MinRating, MaxRating);
      MeanBounds(scores, MinRating, MaxRating);
    }
  }

  /** The helpful-user list after `markHelpful`: the user is appended when absent. */
  function Marked(users: seq<nat>, user: nat): seq<nat>
  {
    if user in users then users else users + [user]
  }

  /** `indexOf`: the first position of `x`, or -1. */
  function IndexOf(s: seq<nat>, x: nat): (i: int)
    ensures -1 <= i < |s|
    ensures i == -1 <==> x !in s
    ensures i >= 0 ==> s[i] == x && x !in s[..i]
  {
    if s == [] then -1
    else if s[0] == x then 0
    else
      var j := IndexOf(s[1..], x);
      assert j >= 0 ==> s[1..][..j] == s[1..j + 1];
      if j == -1 then -1 else j + 1
  }

  /** The helpful-user list after `unmarkHelpful`: the first occurrence is spliced out when present. */
  function Unmarked(users: seq<nat>, user: nat): seq<nat>
  {
    var i := IndexOf(users, user);
    if i == -1 then users else users[..i] + users[i + 1..]
  }

  predicate Distinct(s: seq<nat>)
  {
    forall i, j :: 0 <= i < j < |s| ==> s[i] != s[j]
  }

  /** Marking twice is marking once. */
  lemma MarkIdempotent(users: seq<nat>, user: nat)
    ensures Marked(Marked(users, user), user) == Marked(users, user)
  {
  }

  /** Unmarking undoes a mark that changed something. */
  lemma UnmarkUndoesMark(users: seq<nat>, user: nat)
    requires user !in users
    ensures Unmarked(Marked(users, user), user) == users
  {
    var m := users + [user];
    assert m[..|users|] == users;
  }

  /** Splicing out position `i` leaves the elements before it and shifts those after it down by one. */
  lemma SpliceAt(users: seq<nat>, i: nat, k: nat)
    requires i < |users| && k < |users| - 1
    ensures (users[..i] + users[i + 1..])[k] == if k < i then users[k] else users[k + 1]
  {
  }

  /** Both list updates keep a list free of repeats, and unmarking leaves the user absent from such a list. */
  lemma VotesStayDistinct(users: seq<nat>, user: nat)
    requires Distinct(users)
    ensures Distinct(Marked(users, user)) && user in Marked(users, user)
    ensures Distinct(Unmarked(users, user)) && user !in Unmarked(users, user)
  {
    var i := IndexOf(users, user);
    if i >= 0 {
      var u := users[..i] + users[i + 1..];
      forall k | 0 <= k < |u| ensures u[k] != user {
        SpliceAt(users, i, k);
      }
      forall a, b | 0 <= a < b < |u| ensures u[a] != u[b] {
        SpliceAt(users, i, a);
        SpliceAt(users, i, b);
      }
    }
  }

  /** Unmarking removes exactly one copy of the user, when there is one. */
  lemma UnmarkRemovesOneCopy(users: seq<nat>, user: nat)
    ensures multiset(Unmarked(users, user)) == multiset(users) - multiset{user}
  {
    var i := IndexOf(users, user);
    if i >= 0 {
      var before, after := users[..i], users[i + 1..];
      assert users == before + [user] + after;
      assert multiset(users) == multiset(before) + multiset{user} + multiset(after);
      assert Unmarked(users, user) == before + after;
      assert multiset(Unmarked(users, user)) == multiset(before) + multiset(after);
    } else {
      assert multiset(users)[user] == 0;
    }
  }

  /** Some flag by `user` is still pending. */
  predicate HasPendingFlag(flags: seq<Flag>, user: nat)
  {
    exists i :: 0 <= i < |flags| && flags[i].reportedBy == user && flags[i].status == FlagPending
  }

  /** No user has two pending flags on one review. */
  predicate OnePendingFlagPerUser(flags: seq<Flag>)
  {
    forall i, j :: 0 <= i < j < |flags| && flags[i].status == FlagPending && flags[j].status == FlagPending
      ==> flags[i].reportedBy != flags[j].reportedBy
  }

  class Review {
    var rating: real
    var title: string
    var comment: string
    var categories: Categories
    var status: ReviewStatus
    var helpfulCount: int
    var helpfulUsers: seq<nat>
    var flags: seq<Flag>

    /** The counter equals the number of helpful users, no user is listed twice, and no user has two pending flags. */
    ghost predicate Valid()
      reads this
    {
      helpfulCount == |helpfulUsers| && Distinct(helpfulUsers) && OnePendingFlagPerUser(flags)
    }

    constructor (rating: real, title: string, comment: string, categories: Categories)
      ensures Valid()
      ensures this.rating == rating && this.title == title && this.comment == comment
      ensures this.categories == categories && status == ReviewPending
      ensures helpfulCount == 0 && helpfulUsers == [] && flags == []
    {
      this.rating := rating;
      this.title := title;
      this.comment := comment;
      this.categories := categories;
      status := ReviewPending;
      helpfulCount := 0;
      helpfulUsers := [];
      flags := [];
    }

    /** `markHelpful`: append the user and count the vote, unless the user already voted. */
    method MarkHelpful(user: nat)
      requires Valid()
      modifies this
      ensures Valid()
      ensures helpfulUsers == Marked(old(helpfulUsers), user)
      ensures helpfulCount == old(helpfulCount) + (if user in old(helpfulUsers) then 0 else 1)
      ensures user in helpfulUsers
      ensures flags == old(flags) && rating == old(rating) && status == old(status)
      ensures title == old(title) && comment == old(comment) && categories == old(categories)
    {
      VotesStayDistinct(helpfulUsers, user);
      if user !in helpfulUsers {
        helpfulUsers := helpfulUsers + [user];
        helpfulCount := helpfulCount + 1;
      }
    }

    /** `unmarkHelpful`: splice the user out and uncount the vote, if the user voted. */
    method UnmarkHelpful(user: nat)
      requires Valid()
      modifies this
      ensures Valid()
      ensures helpfulUsers == Unmarked(old(helpfulUsers), user)
      ensures helpfulCount == old(helpfulCount) - (if user in old(helpfulUsers) then 1 else 0)
      ensures user !in helpfulUsers
      ensures flags == old(flags) && rating == old(rating) && status == old(status)
      ensures title == old(title) && comment == old(comment) && categories == old(categories)
    {
      VotesStayDistinct(helpfulUsers, user);
      var userIndex := IndexOf(helpfulUsers, user);
      if userIndex > -1 {
        helpfulUsers := helpfulUsers[..userIndex] + helpfulUsers[userIndex + 1..];
        helpfulCount := helpfulCount - 1;
      }
    }

    /** `flagReview`: record a pending flag, unless the user already has one pending. */
    method FlagReview(user: nat, reason: FlagReason, now: int)
      requires Valid()
      modifies this
      ensures Valid()
      ensures flags == if HasPendingFlag(old(flags), user) then old(flags)
                       else old(flags) + [Flag(reason, user, now, FlagPending)]
      ensures HasPendingFlag(flags, user)
      ensures helpfulUsers == old(helpfulUsers) && helpfulCount == old(helpfulCount)
      ensures rating == old(rating) && status == old(status)
      ensures title == old(title) && comment == old(comment) && categories == old(categories)
    {
      if !HasPendingFlag(flags, user) {
        flags := flags + [Flag(reason, user, now, FlagPending)];
        assert flags[|flags| - 1].reportedBy == user;
      }
    }
  }

  /** What the hooks read of a stored review. */
  datatype StoredReview = StoredReview(id: nat, facility: nat, court: Option<nat>, rating: real, status: ReviewStatus)

  /** A facility, or a court, whose rating summary the hooks recompute. */
  datatype Target = ForFacility(facility: nat) | ForCourt(court: nat)

  datatype RatingSummary = RatingSummary(average: real, count: nat)

  predicate About(r: StoredReview, t: Target)
  {
    match t
    case ForFacility(f) => r.facility == f
    case ForCourt(c) => r.court == Some(c)
  }

  /** The query `{ target, status: 'approved', _id: { $ne: excluded } }`, as the ratings it returns. */
  function ApprovedRatings(rs: seq<StoredReview>, t: Target, excluded: Option<nat>): (r: seq<real>)
    ensures |r| <= |rs|
  {
    if rs == [] then []
    else
      var head := rs[0];
      (if head.status == Approved && About(head, t) && Some(head.id) != excluded then [head.rating] else [])
      + ApprovedRatings(rs[1..], t, excluded)
  }

  lemma {:induction false} ApprovedRatingsWithin(rs: seq<StoredReview>, t: Target, excluded: Option<nat>)
    requires forall i :: 0 <= i < |rs| ==> MinRating <= rs[i].rating <= MaxRating
    ensures forall i :: 0 <= i < |ApprovedRatings(rs, t, excluded)| ==>
      MinRating <= ApprovedRatings(rs, t, excluded)[i] <= MaxRating
  {
    if rs != [] {
      ApprovedRatingsWithin(rs[1..], t, excluded);
    }
  }

  /** Excluding an id that no approved review of the target carries changes nothing. */
  lemma {:induction false} ExcludingOtherIdsIsNoOp(rs: seq<StoredReview>, t: Target, removed: nat)
    requires forall i :: 0 <= i < |rs| && rs[i].id == removed ==> !(rs[i].status == Approved && About(rs[i], t))
    ensures ApprovedRatings(rs, t, Some(removed)) == ApprovedRatings(rs, t, None)
  {
    if rs != [] {
      ExcludingOtherIdsIsNoOp(rs[1..], t, removed);
    }
  }

  /** The post-save recomputation: the mean of the approved ratings, to one decimal, with their number; nothing when there are none. */
  function AfterSave(rs: seq<StoredReview>, t: Target, current: RatingSummary): (r: RatingSummary)
    ensures |ApprovedRatings(rs, t, None)| == 0 ==> r == current
    ensures |ApprovedRatings(rs, t, None)| > 0 ==> r.count == |ApprovedRatings(rs, t, None)|
    ensures |ApprovedRatings(rs, t, None)| > 0 ==>
      Mean(ApprovedRatings(rs, t, None)) - 0.05 < r.average <= Mean(ApprovedRatings(rs, t, None)) + 0.05
  {
    var ratings := ApprovedRatings(rs, t, None);
    if |ratings| > 0 then RatingSummary(RoundToTenth(Mean(ratings)), |ratings|) else current
  }

  /** The pre-remove recomputation: as after a save, but leaving the removed review out, and reset to zero when none is left. */
  function AfterRemove(rs: seq<StoredReview>, removed: nat, t: Target): (r: RatingSummary)
    ensures |ApprovedRatings(rs, t, Some(removed))| == 0 ==> r == RatingSummary(0.0, 0)
    ensures r.count == |ApprovedRatings(rs, t, Some(removed))|
    ensures |ApprovedRatings(rs, t, Some(removed))| > 0 ==>
      Mean(ApprovedRatings(rs, t, Some(removed))) - 0.05 < r.average <= Mean(ApprovedRatings(rs, t, Some(removed))) + 0.05
  {
    var ratings := ApprovedRatings(rs, t, Some(removed));
    if |ratings| > 0 then RatingSummary(RoundToTenth(Mean(ratings)), |ratings|) else RatingSummary(0.0, 0)
  }

  /** Rounding to one decimal keeps a value in [1, 5] inside [1, 5]. */
  lemma RoundToTenthWithinRatings(x: real)
    requires MinRating <= x <= MaxRating
    ensures MinRating <= RoundToTenth(x) <= MaxRating
  {
    RoundMonotone(10.0, x * 10.0);
    RoundMonotone(x * 10.0, 50.0);
    RoundOfInteger(10);
    RoundOfInteger(50);
  }

  /** With every stored rating in [1, 5], the mean of an approved selection rounded to a tenth stays in [1, 5]. */
  lemma RoundedMeanWithinRatings(rs: seq<StoredReview>, t: Target, excluded: Option<nat>)
    requires forall i :: 0 <= i < |rs| ==> MinRating <= rs[i].rating <= MaxRating
    requires |ApprovedRatings(rs, t, excluded)| > 0
    ensures MinRating <= RoundToTenth(Mean(ApprovedRatings(rs, t, excluded))) <= MaxRating
  {
    var ratings := ApprovedRatings(rs, t, excluded);
    ApprovedRatingsWithin(rs, t, excluded);
    MeanBounds(ratings, MinRating, MaxRating);
    RoundToTenthWithinRatings(Mean(ratings));
  }

  /**
   * With every stored rating in [1, 5], the average either hook writes is
   * in [1, 5] whenever an approved review is left to count; a save that
   * finds none keeps the current summary, and a removal that leaves none
   * writes zero.
   */
  lemma SummaryWithinRatings(rs: seq<StoredReview>, t: Target, current: RatingSummary, removed: nat)
    requires forall i :: 0 <= i < |rs| ==> MinRating <= rs[i].rating <= MaxRating
    ensures |ApprovedRatings(rs, t, None)| > 0 ==> MinRating <= AfterSave(rs, t, current).average <= MaxRating
    ensures |ApprovedRatings(rs, t, None)| == 0 ==> AfterSave(rs, t, current) == current
    ensures AfterRemove(rs, removed, t).count > 0 ==> MinRating <= AfterRemove(rs, removed, t).average <= MaxRating
    ensures AfterRemove(rs, removed, t).count == 0 ==> AfterRemove(rs, removed, t).average == 0.0
  {
    if |ApprovedRatings(rs, t, None)| > 0 {
      RoundedMeanWithinRatings(rs, t, None);
    }
    if |ApprovedRatings(rs, t, Some(removed))| > 0 {
      RoundedMeanWithinRatings(rs, t, Some(removed));
    }
  }

  /** Removing a review that was not an approved one of the target leaves what a save would have written, when any remain. */
  lemma RemovingUnapprovedIsLikeSaving(rs: seq<StoredReview>, removed: nat, t: Target, current: RatingSummary)
    requires forall i :: 0 <= i < |rs| && rs[i].id == removed ==> !(rs[i].status == Approved && About(rs[i], t))
    requires |ApprovedRatings(rs, t, None)| > 0
    ensures AfterRemove(rs, removed, t) == AfterSave(rs, t, current)
  {
    ExcludingOtherIdsIsNoOp(rs, t, removed);
  }
}
