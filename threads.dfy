/**
 * The Threads publisher (`publishers/threads.py`): authentication stores the
 * configured token and user id and checks them, `validate` applies the
 * Threads limits, and `publish` posts text in two steps, creating a
 * container and then publishing it. The Threads API is represented by its
 * responses, passed in.
 */
module Threads {
  import opened Wrappers
  import opened ContentModel
  import Formatter
  import Social

  /** `THREADS_API_BASE`. */
  const ApiBase := "https://graph.threads.net/v1.0"

  /** An HTTP response: the status, the body text and the `id` of its JSON. */
  datatype Response = Response(status: int, body: string, id: Option<string>)

  /** The two requests `publish` makes. */
  datatype Call =
    | CreateContainer(url: string, text: string, token: Option<string>)
    | PublishContainer(url: string, creationId: Option<string>, token: Option<string>)

  /** What `publish` returns. */
  datatype Thread = Thread(threadId: Option<string>, url: string)

  /** `format_content`: the text the formatter gives for Threads. */
  function ThreadText(c: Content): (r: string)
    ensures r == Formatter.FormatDefault(c)
  {
    Formatter.PlatformText(c, "threads")
  }

  class ThreadsPublisher {
    var accessToken: Option<string>
    var userId: Option<string>

    constructor ()
      ensures accessToken.None? && userId.None?
    {
      accessToken := None;
      userId := None;
    }

    /** "Authenticated" for `validate`: a non-empty access token is stored. */
    predicate Authenticated()
      reads this
    {
      accessToken.Some? && accessToken.value != ""
    }

    /**
     * `authenticate`: the configured token and user id (empty when not
     * configured) are stored first; an empty one raises before any request,
     * and otherwise a `/me` answer other than 200 raises.
     */
    method Authenticate(token: string, user: string, me: Response) returns (r: Result<bool, Social.SocialError>)
      modifies this
      ensures accessToken == Some(token) && userId == Some(user)
      ensures token == "" || user == "" ==> r == Err(Social.ValueError("Threads access_token and user_id are required"))
      ensures token != "" && user != "" ==> (r.Ok? <==> me.status == 200)
      ensures token != "" && user != "" && me.status != 200
              ==> r == Err(Social.RuntimeError("Authentication failed: " + me.body))
      ensures r.Ok? ==> r.value && Authenticated()
    {
      accessToken := Some(token);
      userId := Some(user);
      if token == "" || user == "" {
        return Err(Social.ValueError("Threads access_token and user_id are required"));
      }
      if me.status != 200 {
        return Err(Social.RuntimeError("Authentication failed: " + me.body));
      }
      return Ok(true);
    }

    /** `validate`: the shared checks with the Threads limits. */
    method Validate(c: Content, fs: Social.Sizes) returns (r: Result<bool, Social.SocialError>)
      ensures r == Social.ValidateSpec(Social.ThreadsLimits(), Authenticated(), c, fs)
    {
      r := Social.Validate(Social.ThreadsLimits(), Authenticated(), c, fs);
    }

    /**
     * `publish`: content with images is refused before any request; a text
     * post creates a container and then publishes it with the container's
     * id, stopping at the first answer other than 200. `calls` are the
     * requests made, in order.
     */
    method Publish(c: Content, create: Response, publish: Response)
      returns (calls: seq<Call>, r: Result<Thread, Social.SocialError>)
      ensures HasImages(c) ==> calls == [] && r == Err(Social.NotImplemented("Image posting not yet implemented"))
      ensures !HasImages(c) ==>
        |calls| >= 1 && calls[0] == CreateContainer(ApiBase + "/" + Shown(userId) + "/threads", ThreadText(c), accessToken)
      ensures !HasImages(c) && create.status != 200 ==>
        |calls| == 1 && r == Err(Social.RuntimeError("Failed to create thread container: " + create.body))
      ensures !HasImages(c) && create.status == 200 ==>
        |calls| == 2 && calls[1] == PublishContainer(ApiBase + "/" + Shown(userId) + "/threads_publish", create.id, accessToken)
      ensures !HasImages(c) && create.status == 200 && publish.status != 200 ==>
        r == Err(Social.RuntimeError("Failed to publish thread: " + publish.body))
      ensures r.Ok? <==> !HasImages(c) && create.status == 200 && publish.status == 200
      ensures r.Ok? ==> r.value == Thread(publish.id, "https://threads.net/@" + Shown(userId) + "/post/" + Shown(publish.id))
    {
      var text := ThreadText(c);
      calls := [];
      if HasImages(c) {
        return [], Err(Social.NotImplemented("Image posting not yet implemented"));
      }
      calls := calls + [CreateContainer(ApiBase + "/" + Shown(userId) + "/threads", text, accessToken)];
      if create.status != 200 {
        return calls, Err(Social.RuntimeError("Failed to create thread container: " + create.body));
      }
      calls := calls + [PublishContainer(ApiBase + "/" + Shown(userId) + "/threads_publish", create.id, accessToken)];
      if publish.status != 200 {
        return calls, Err(Social.RuntimeError("Failed to publish thread: " + publish.body));
      }
      r := Ok(Thread(publish.id, "https://threads.net/@" + Shown(userId) + "/post/" + Shown(publish.id)));
    }
  }
}
