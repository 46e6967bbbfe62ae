/** The feedback store (controllers/feedbackController.js). The feedback schema
    (models/feedbackModel.js) is not part of this model: a feedback is taken to
    hold the fields the handlers write, and saving it always succeeds. Image
    uploads are an input outcome; each image destruction requested from the
    image host is recorded by its public id. */
module Feedbacks {
  import opened Seqs
  import opened ImageIds
  import opened Accounts

  datatype Feedback = Feedback(user: UserId, name: string, image: string, rating: int, comments: string)

  /** What `uploadImage` leaves behind: the URL of the uploaded file, no file in
      the request (it answers 400 itself), or a failed upload (it answers 500). */
  datatype Upload = Uploaded(url: string) | NoFile | UploadFailed

  /** The schema fields an update body may carry besides the image. */
  datatype FeedbackPatch = FeedbackPatch(user: Option<UserId>, name: Option<string>, rating: Option<int>, comments: Option<string>)

  function ByUser(u: UserId): Feedback -> bool {
    (f: Feedback) => f.user == u
  }

  /** `findOne({ user: u })`: the first feedback of `u` in storage order. */
  function FindFeedback(feedbacks: seq<Feedback>, u: UserId): Option<nat> {
    FindFirst(ByUser(u), feedbacks)
  }

  /** `findOneAndUpdate` with the body: each field the body carries replaces the
      stored one, and the image is the one chosen beforehand. */
  function Patched(f: Feedback, patch: FeedbackPatch, image: string): (g: Feedback)
    ensures g.image == image
    ensures g.user == (if patch.user.Some? then patch.user.value else f.user)
    ensures g.name == (if patch.name.Some? then patch.name.value else f.name)
    ensures g.rating == (if patch.rating.Some? then patch.rating.value else f.rating)
    ensures g.comments == (if patch.comments.Some? then patch.comments.value else f.comments)
  {
    Feedback(
      if patch.user.Some? then patch.user.value else f.user,
      if patch.name.Some? then patch.name.value else f.name,
      image,
      if patch.rating.Some? then patch.rating.value else f.rating,
      if patch.comments.Some? then patch.comments.value else f.comments)
  }

  /** No user has two feedbacks. */
  ghost predicate AtMostOnePerUser(feedbacks: seq<Feedback>) {
    forall i, j :: 0 <= i < j < |feedbacks| ==> feedbacks[i].user != feedbacks[j].user
  }

  /** Replacing one feedback by one with the same user keeps at most one per user. */
  lemma SameUserReplaceKeepsUnique(feedbacks: seq<Feedback>, i: nat, g: Feedback)
    requires AtMostOnePerUser(feedbacks) && i < |feedbacks| && g.user == feedbacks[i].user
    ensures AtMostOnePerUser(feedbacks[i := g])
  {
    var after := feedbacks[i := g];
    forall a, b | 0 <= a < b < |after| ensures after[a].user != after[b].user {
      assert after[a].user == feedbacks[a].user && after[b].user == feedbacks[b].user;
    }
  }

  /** Taking one feedback out keeps at most one per user. */
  lemma RemoveKeepsUnique(feedbacks: seq<Feedback>, i: nat)
    requires i < |feedbacks|
    ensures AtMostOnePerUser(feedbacks) ==> AtMostOnePerUser(feedbacks[..i] + feedbacks[i + 1..])
  {
    if AtMostOnePerUser(feedbacks) {
      var rest := feedbacks[..i] + feedbacks[i + 1..];
      forall a, b | 0 <= a < b < |rest| ensures rest[a].user != rest[b].user {
        var a', b' := if a < i then a else a + 1, if b < i then b else b + 1;
        assert rest[a] == feedbacks[a'] && rest[b] == feedbacks[b'];
      }
    }
  }

  /** An update body that names another user moves the feedback to that user,
      who may then hold two: the at-most-one rule is kept by giveFeedback only. */
  lemma UserOverrideCanDuplicate()
    ensures var before := [Feedback(1, "a", "u1", 5, ""), Feedback(2, "b", "u2", 4, "")];
            AtMostOnePerUser(before) &&
            !AtMostOnePerUser(before[0 := Patched(before[0], FeedbackPatch(Some(2), None, None, None), "u1")])
  {
    var before := [Feedback(1, "a", "u1", 5, ""), Feedback(2, "b", "u2", 4, "")];
    var after := before[0 := Patched(before[0], FeedbackPatch(Some(2), None, None, None), "u1")];
    assert after[0].user == after[1].user;
  }

  class FeedbackStore {
    var feedbacks: seq<Feedback>
    /** Public ids handed to the image host for destruction, in order. */
    var destroyed: seq<string>

    constructor ()
      ensures feedbacks == [] && destroyed == []
    {
      feedbacks := [];
      destroyed := [];
    }

    /** giveFeedback: 400 when the caller already has feedback; otherwise the
        upload decides: the feedback is stored with the uploaded URL, or the
        upload's own answer stands and nothing is stored. */
    method GiveFeedback(user: UserId, name: string, rating: int, comments: string, upload: Upload)
      returns (code: int)
      modifies this`feedbacks
      ensures FindFeedback(old(feedbacks), user).Some? ==> code == 400 && feedbacks == old(feedbacks)
      ensures FindFeedback(old(feedbacks), user).None? ==>
        match upload
        case Uploaded(url) => code == 200 && feedbacks == old(feedbacks) + [Feedback(user, name, url, rating, comments)]
        case NoFile => code == 400 && feedbacks == old(feedbacks)
        case UploadFailed => code == 500 && feedbacks == old(feedbacks)
      ensures AtMostOnePerUser(old(feedbacks)) ==> AtMostOnePerUser(feedbacks)
    {
      if FindFeedback(feedbacks, user).Some? {
        return 400;
      }
      match upload
      case NoFile => return 400;
      case UploadFailed => return 500;
      case Uploaded(url) =>
        feedbacks := feedbacks + [Feedback(user, name, url, rating, comments)];
        return 200;
    }

    /** getAllFeedbacks: every feedback, newest first. */
    method GetAllFeedbacks() returns (code: int, data: seq<Feedback>)
      ensures code == 200 && |data| == |feedbacks|
      ensures forall k :: 0 <= k < |feedbacks| ==> data[k] == feedbacks[|feedbacks| - 1 - k]
    {
      return 200, Reversed(feedbacks);
    }

    /** getFeedback: the first feedback of the user, or 404. */
    method GetFeedback(user: UserId) returns (code: int, data: Option<Feedback>)
      ensures code == 404 <==> forall i :: 0 <= i < |feedbacks| ==> feedbacks[i].user != user
      ensures code == 404 <==> data.None?
      ensures code == 200 || code == 404
      ensures data.Some? ==> data.value.user == user
      ensures data.Some? ==>
        exists i :: 0 <= i < |feedbacks| && feedbacks[i] == data.value && (forall k :: 0 <= k < i ==> feedbacks[k].user != user)
    {
      var found := FindFeedback(feedbacks, user);
      if found.None? {
        return 404, None;
      }
      return 200, Some(feedbacks[found.value]);
    }

    /** updateFeedback: 404 when the caller has no feedback. Without a new file
        the stored image is kept; with one the old image is destroyed first and
        the upload decides. */
    method UpdateFeedback(user: UserId, patch: FeedbackPatch, upload: Upload)
      returns (code: int, updated: Option<Feedback>)
      modifies this`feedbacks, this`destroyed
      ensures FindFeedback(old(feedbacks), user).None? ==>
        code == 404 && updated.None? && feedbacks == old(feedbacks) && destroyed == old(destroyed)
      ensures FindFeedback(old(feedbacks), user).Some? ==>
        var i := FindFeedback(old(feedbacks), user).value;
        var f := old(feedbacks)[i];
        match upload
        case NoFile =>
          && code == 200 && destroyed == old(destroyed)
          && feedbacks == old(feedbacks)[i := Patched(f, patch, f.image)]
          && updated == Some(feedbacks[i])
        case Uploaded(url) =>
          && code == 200 && destroyed == old(destroyed) + [PublicId(f.image)]
          && feedbacks == old(feedbacks)[i := Patched(f, patch, url)]
          && updated == Some(feedbacks[i])
        case UploadFailed =>
          && code == 500 && updated.None? && destroyed == old(destroyed) + [PublicId(f.image)]
          && feedbacks == old(feedbacks)
      ensures AtMostOnePerUser(old(feedbacks)) && (patch.user.None? || patch.user == Some(user)) ==>
        AtMostOnePerUser(feedbacks)
    {
      var found := FindFeedback(feedbacks, user);
      if found.None? {
        return 404, None;
      }
      var i := found.value;
      var f := feedbacks[i];
      var image := f.image;
      match upload {
        case NoFile =>
        case UploadFailed =>
          destroyed := destroyed + [PublicId(f.image)];
          return 500, None;
        case Uploaded(url) =>
          destroyed := destroyed + [PublicId(f.image)];
          image := url;
      }
      var g := Patched(f, patch, image);
      if AtMostOnePerUser(feedbacks) && (patch.user.None? || patch.user == Some(user)) {
        SameUserReplaceKeepsUnique(feedbacks, i, g);
      }
      feedbacks := feedbacks[i := g];
      return 200, Some(g);
    }

    /** deleteFeedback: destroys the image and removes the caller's feedback;
        404 when there is none. */
    method DeleteFeedback(user: UserId) returns (code: int, deleted: Option<Feedback>)
      modifies this`feedbacks, this`destroyed
      ensures FindFeedback(old(feedbacks), user).None? ==>
        code == 404 && deleted.None? && feedbacks == old(feedbacks) && destroyed == old(destroyed)
      ensures FindFeedback(old(feedbacks), user).Some? ==>
        var i := FindFeedback(old(feedbacks), user).value;
        && code == 200
        && deleted == Some(old(feedbacks)[i])
        && feedbacks == old(feedbacks)[..i] + old(feedbacks)[i + 1..]
        && destroyed == old(destroyed) + [PublicId(old(feedbacks)[i].image)]
      ensures AtMostOnePerUser(old(feedbacks)) ==> AtMostOnePerUser(feedbacks)
    {
      var found := FindFeedback(feedbacks, user);
      if found.None? {
        return 404, None;
      }
      var i := found.value;
      var f := feedbacks[i];
      destroyed := destroyed + [PublicId(f.image)];
      RemoveKeepsUnique(feedbacks, i);
      feedbacks := feedbacks[..i] + feedbacks[i + 1..];
      return 200, Some(f);
    }
  }
}
