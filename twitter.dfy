/**
 * The X publisher (`publishers/twitter.py`): authentication creates the
 * clients, `validate` applies the X limits, `publish` uploads the images in
 * order and posts the text with their media ids. The X API is represented by
 * its answers, passed in.
 */
module Twitter {
  import opened Wrappers
  import opened ContentModel
  import Formatter
  import Social

  /** What `create_tweet` receives: the text, and `media_ids` only when there are any. */
  datatype TweetRequest = TweetRequest(text: string, mediaIds: Option<seq<string>>)

  /** What `publish` returns. */
  datatype Tweet = Tweet(tweetId: string, url: string)

  /** `format_content`: the text the formatter gives for X. */
  function TweetText(c: Content): (r: string)
    ensures r == Formatter.FormatDefault(c)
  {
    Formatter.PlatformText(c, "x")
  }

  /**
   * One media id per image, in image order, from `media_upload` (`None`
   * where an upload raises); `None` as soon as one upload raises.
   */
  function MediaIds(upload: string -> Option<string>, paths: seq<string>): (r: Option<seq<string>>)
    ensures r.Some? ==> |r.value| == |paths| && forall i :: 0 <= i < |paths| ==> upload(paths[i]) == Some(r.value[i])
    ensures r.None? <==> exists i :: 0 <= i < |paths| && upload(paths[i]).None?
  {
    if paths == [] then Some([])
    else
      var n := |paths| - 1;
      match MediaIds(upload, paths[..n])
      case None =>
        var i :| 0 <= i < n && upload(paths[..n][i]).None?;
        assert upload(paths[i]).None?;
        None
      case Some(ids) =>
        match upload(paths[n])
        case None => None
        case Some(id) =>
          assert forall i :: 0 <= i < n ==> paths[..n][i] == paths[i];
          Some(ids + [id])
  }

  /** The request `publish` sends: media ids only when the list is not empty. */
  function Request(c: Content, ids: seq<string>): (r: TweetRequest)
    ensures r.text == Formatter.FormatDefault(c)
    ensures r.mediaIds.Some? <==> ids != []
    ensures r.mediaIds.Some? ==> r.mediaIds.value == ids
  {
    TweetRequest(TweetText(c), if ids == [] then None else Some(ids))
  }

  class TwitterPublisher {
    /** `self.client` and `self.api` are set (not `None`). */
    var client: bool
    var api: bool

    constructor ()
      ensures !client && !api
    {
      client := false;
      api := false;
    }

    /**
     * `authenticate`: the client and the API object are created first and
     * the account is looked up afterwards; a failed lookup raises, but leaves
     * both set.
     */
    method Authenticate(userFound: bool) returns (r: Result<bool, Social.SocialError>)
      modifies this
      ensures client && api
      ensures r.Ok? <==> userFound
      ensures r.Ok? ==> r.value
      ensures r.Err? ==> r.error == Social.ApiError("Authentication failed: could not get user info")
    {
      client := true;
      api := true;
      if !userFound {
        return Err(Social.ApiError("Authentication failed: could not get user info"));
      }
      return Ok(true);
    }

    /** `validate`: the shared checks with X's limits; "authenticated" means a client is set. */
    method Validate(c: Content, fs: Social.Sizes) returns (r: Result<bool, Social.SocialError>)
      ensures r == Social.ValidateSpec(Social.XLimits(), client, c, fs)
    {
      r := Social.Validate(Social.XLimits(), client, c, fs);
    }

    /**
     * `publish`: each image uploaded in order, then one `create_tweet` with
     * the text and (when there are any) the media ids; the result carries the
     * tweet's id and URL. `upload` gives `media_upload`'s id per path and
     * `created` the id `create_tweet` answers with (`None` where the call
     * raises). Without a prior `authenticate` the calls fail on `None`.
     */
    method Publish(c: Content, upload: string -> Option<string>, created: Option<string>)
      returns (request: Option<TweetRequest>, r: Result<Tweet, Social.SocialError>)
      ensures HasImages(c) && !api ==> request.None? && r.Err?
      ensures HasImages(c) && MediaIds(upload, c.imagePaths.value).None? ==> request.None? && r.Err?
      ensures request.Some? <==>
                client && (HasImages(c) ==> api && MediaIds(upload, c.imagePaths.value).Some?)
      ensures request.Some? ==>
                request.value == Request(c, if HasImages(c) then MediaIds(upload, c.imagePaths.value).value else [])
      ensures r.Ok? <==> request.Some? && created.Some?
      ensures r.Ok? ==> r.value == Tweet(created.value, "https://x.com/i/status/" + created.value)
    {
      var text := TweetText(c);
      var mediaIds: seq<string> := [];
      if HasImages(c) {
        var paths := c.imagePaths.value;
        if !api {
          return None, Err(Social.NoneAttribute("'NoneType' object has no attribute 'media_upload'"));
        }
        for i := 0 to |paths|
          invariant MediaIds(upload, paths[..i]) == Some(mediaIds)
        {
          assert paths[..i + 1][..i] == paths[..i];
          var media := upload(paths[i]);
          if media.None? {
            assert paths[..i + 1][i] == paths[i];
            assert MediaIds(upload, paths[..i + 1]).None?;
            assert upload(paths[i]).None?;
            return None, Err(Social.ApiError("media upload failed: " + paths[i]));
          }
          mediaIds := mediaIds + [media.value];
        }
        assert paths[..|paths|] == paths;
      }
      if !client {
        return None, Err(Social.NoneAttribute("'NoneType' object has no attribute 'create_tweet'"));
      }
      request := Some(Request(c, mediaIds));
      if created.None? {
        return request, Err(Social.ApiError("create_tweet failed"));
      }
      r := Ok(Tweet(created.value, "https://x.com/i/status/" + created.value));
    }
  }

  /** With every upload succeeding, the ids are the uploads' answers in image order. */
  lemma IdsInImageOrder(upload: string -> Option<string>, paths: seq<string>, i: nat)
    requires forall p :: p in paths ==> upload(p).Some?
    requires i < |paths|
    ensures MediaIds(upload, paths).Some? && MediaIds(upload, paths).value[i] == upload(paths[i]).value
  {
    assert paths[i] in paths;
  }
}
