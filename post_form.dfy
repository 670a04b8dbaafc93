/**
 * The post form: its default values, its submit-button flag and its submit handler.
 *
 * The handler's collaborators are inputs: what the storage upload does (gives the file's view
 * URL, or throws), what the one mutation it dispatches does (resolves to a truthy or falsy
 * post, or throws), the signed-in user's id and the post being edited. What the handler does
 * to the outside world is recorded, in order, as a trace of events.
 */
module PostForm {
  import opened Wrappers
  import Strings

  datatype Action = Create | Update

  function ActionName(action: Action): string
  {
    match action
    case Create => "Create"
    case Update => "Update"
  }

  /** An attached file; only its identity matters here. */
  datatype File = File(name: string, content: seq<bv8>)

  /** The stored post document, as far as the form reads it. */
  datatype Post = Post(id: string, caption: string, location: string, tags: seq<string>, imageUrl: string)

  /** The already-validated form value handed to the submit handler. */
  datatype PostValue = PostValue(caption: string, file: seq<File>, location: string, tags: string)

  /** The form value spread into the update payload, with its three extra keys. */
  datatype UpdatePayload = UpdatePayload(value: PostValue, image: string, postId: string, imageId: string)

  /** The form value spread into the create payload, with its two extra keys. */
  datatype CreatePayload = CreatePayload(value: PostValue, image: string, userId: string)

  /** Upload of one file followed by reading its view URL: the URL, or the message thrown. */
  datatype UploadResult = Uploaded(href: string) | UploadThrew(message: string)

  /** The awaited mutation: its result's truthiness, or the message thrown. */
  datatype MutationResult = Resolved(truthy: bool) | Threw(message: string)

  datatype Event =
    | UploadFile(file: File)
    | UpdatePost(update: UpdatePayload)
    | CreatePost(create: CreatePayload)
    | LogError(message: string)
    | Toast(title: string, description: Option<string>)
    | Navigate(path: string)

  // ---------------------------------------------------------------------------------------
  // Traces

  datatype Kind = UploadKind | MutationKind | LogKind | ToastKind | NavigateKind

  function KindOf(e: Event): Kind
  {
    match e
    case UploadFile(_) => UploadKind
    case UpdatePost(_) => MutationKind
    case CreatePost(_) => MutationKind
    case LogError(_) => LogKind
    case Toast(_, _) => ToastKind
    case Navigate(_) => NavigateKind
  }

  /** The events of one kind, in trace order. */
  function OfKind(trace: seq<Event>, k: Kind): seq<Event>
  {
    if |trace| == 0 then []
    else (if KindOf(trace[0]) == k then [trace[0]] else []) + OfKind(trace[1..], k)
  }

  lemma {:induction false} OfKindAppend(a: seq<Event>, b: seq<Event>, k: Kind)
    ensures OfKind(a + b, k) == OfKind(a, k) + OfKind(b, k)
  {
    if |a| == 0 {
      assert a + b == b;
    } else {
      var head := if KindOf(a[0]) == k then [a[0]] else [];
      assert (a + b)[0] == a[0];
      assert (a + b)[1..] == a[1..] + b;
      assert OfKind(a + b, k) == head + OfKind(a[1..] + b, k);
      OfKindAppend(a[1..], b, k);
      assert OfKind(a, k) == head + OfKind(a[1..], k);
      assert head + (OfKind(a[1..], k) + OfKind(b, k)) == (head + OfKind(a[1..], k)) + OfKind(b, k);
    }
  }

  /**
   * Where an event sits in the handler's sequence: the upload, then the mutation, then the
   * error log, then the toast, then the navigation.
   */
  function Stage(e: Event): nat
  {
    match KindOf(e)
    case UploadKind => 0
    case MutationKind => 1
    case LogKind => 2
    case ToastKind => 3
    case NavigateKind => 4
  }

  ghost predicate InStageOrder(trace: seq<Event>)
  {
    forall i, j :: 0 <= i < j < |trace| ==> Stage(trace[i]) <= Stage(trace[j])
  }

  // ---------------------------------------------------------------------------------------
  // Named conditions of the handler

  /** The update path is taken only for an existing post in update mode. */
  predicate TakesUpdatePath(action: Action, post: Option<Post>)
  {
    post.Some? && action == Update
  }

  /** The upload is attempted and throws. */
  predicate UploadFails(value: PostValue, upload: UploadResult)
  {
    |value.file| > 0 && upload.UploadThrew?
  }

  /** The media URL after the upload step: the uploaded file's view URL, or "" with no file. */
  function FileUrl(value: PostValue, upload: UploadResult): string
  {
    if |value.file| > 0 && upload.Uploaded? then upload.href else ""
  }

  /** The message of the exception the handler catches, if any. */
  function Thrown(value: PostValue, upload: UploadResult, mutation: MutationResult): (r: Option<string>)
    ensures r.Some? <==> UploadFails(value, upload) || mutation.Threw?
  {
    if UploadFails(value, upload) then Some(upload.message)
    else if mutation.Threw? then Some(mutation.message)
    else None
  }

  function SoftFailureTitle(action: Action): string
  {
    ActionName(action) + " post failed. Please try again."
  }

  function HardFailureTitle(action: Action): string
  {
    ActionName(action) + " post failed."
  }

  /** The two failure toasts can be told apart, and each names the action. */
  lemma FailureTitlesDistinct(a: Action, b: Action)
    ensures SoftFailureTitle(a) != HardFailureTitle(b)
    ensures SoftFailureTitle(a) == SoftFailureTitle(b) ==> a == b
    ensures HardFailureTitle(a) == HardFailureTitle(b) ==> a == b
  {
    assert |ActionName(a)| == 6 && |ActionName(b)| == 6;
    assert SoftFailureTitle(a)[0] == ActionName(a)[0];
    assert SoftFailureTitle(b)[0] == ActionName(b)[0];
    assert HardFailureTitle(a)[0] == ActionName(a)[0];
    assert HardFailureTitle(b)[0] == ActionName(b)[0];
  }

  // ---------------------------------------------------------------------------------------
  // Default values and the submit button

  /**
   * The form's initial value: the edited post's caption, location and comma-joined tags, or
   * empty text without a post; never a file.
   */
  function DefaultValues(post: Option<Post>): (v: PostValue)
    ensures v.file == []
    ensures post.None? ==> v == PostValue("", [], "", "")
    ensures post.Some? ==> v.caption == post.value.caption && v.location == post.value.location
  {
    match post
    case None => PostValue("", [], "", "")
    case Some(p) => PostValue(p.caption, [], p.location, Strings.Join(p.tags, ','))
  }

  /**
   * The default tags text is the post's tags joined by commas: splitting it on commas gives the
   * tags back whenever they are non-empty and contain no comma, and no tag list is lost
   * except through a comma inside a tag or the empty list, which shows as "".
   */
  lemma DefaultTags(p: Post)
    ensures p.tags == [] ==> DefaultValues(Some(p)).tags == ""
    ensures p.tags != [] && Strings.SeparatorFree(p.tags, ',') ==>
              Strings.Split(DefaultValues(Some(p)).tags, ',') == p.tags
  {
    if p.tags != [] && Strings.SeparatorFree(p.tags, ',') {
      Strings.SplitJoin(p.tags, ',');
    }
  }

  /** The submit button is enabled only while neither mutation is in flight. */
  function SubmitDisabled(isLoadingCreate: bool, isLoadingUpdate: bool): (disabled: bool)
    ensures !disabled <==> !isLoadingCreate && !isLoadingUpdate
  {
    isLoadingCreate || isLoadingUpdate
  }

  // ---------------------------------------------------------------------------------------
  // The submit handler, stage by stage

  /** The upload stage: the first file alone, and nothing without a file. */
  function UploadStage(value: PostValue): seq<Event>
  {
    if |value.file| > 0 then [UploadFile(value.file[0])] else []
  }

  /** The media URL of an update: the new file's URL when non-empty, else the post's own. */
  function UpdateImage(fileUrl: string, p: Post): string
  {
    if |fileUrl| > 0 then fileUrl else p.imageUrl
  }

  /** The mutation stage: none after a failed upload, else the update or the create call. */
  function MutationStage(value: PostValue, action: Action, post: Option<Post>, userId: string,
                         upload: UploadResult): seq<Event>
  {
    if UploadFails(value, upload) then []
    else if TakesUpdatePath(action, post) then
      [UpdatePost(UpdatePayload(value, UpdateImage(FileUrl(value, upload), post.value), "", ""))]
    else [CreatePost(CreatePayload(value, FileUrl(value, upload), userId))]
  }

  /** Where the handler navigates after a submission that threw nothing. */
  function Destination(action: Action, post: Option<Post>): string
  {
    if TakesUpdatePath(action, post) then "/posts/" + post.value.id else "/"
  }

  /**
   * The report stage: a caught exception is logged and toasted with its message and ends the
   * submission; otherwise a falsy result is toasted and navigation follows in both cases.
   */
  function ReportStage(value: PostValue, action: Action, post: Option<Post>,
                       upload: UploadResult, mutation: MutationResult): seq<Event>
  {
    match Thrown(value, upload, mutation)
    case Some(message) => [LogError(message), Toast(HardFailureTitle(action), Some(message))]
    case None =>
      (if mutation.truthy then [] else [Toast(SoftFailureTitle(action), None)])
      + [Navigate(Destination(action, post))]
  }

  /** Everything one submission does, in order. */
  function SubmitTrace(value: PostValue, action: Action, post: Option<Post>, userId: string,
                       upload: UploadResult, mutation: MutationResult): seq<Event>
  {
    UploadStage(value) + MutationStage(value, action, post, userId, upload)
    + ReportStage(value, action, post, upload, mutation)
  }

  /**
   * `handleSubmit`: the `try` block uploads the first file if there is one, then dispatches
   * either the update (and returns after navigating) or the create; the `catch` block reports
   * whatever either step threw.
   */
  method HandleSubmit(value: PostValue, action: Action, post: Option<Post>, userId: string,
                      upload: UploadResult, mutation: MutationResult)
    returns (trace: seq<Event>)
    ensures trace == SubmitTrace(value, action, post, userId, upload, mutation)
  {
    trace := [];
    var failure: Option<string> := None;
    var fileUrl := "";

    if |value.file| > 0 {
      trace := trace + [UploadFile(value.file[0])];
      match upload {
        case UploadThrew(message) => failure := Some(message);
        case Uploaded(href) => fileUrl := href;
      }
    }

    if failure.None? && post.Some? && action == Update {
      var image := if |fileUrl| > 0 then fileUrl else post.value.imageUrl;
      trace := trace + [UpdatePost(UpdatePayload(value, image, "", ""))];
      match mutation {
        case Threw(message) => failure := Some(message);
        case Resolved(truthy) =>
          if !truthy {
            trace := trace + [Toast(SoftFailureTitle(action), None)];
          }
          trace := trace + [Navigate("/posts/" + post.value.id)];
      }
      if failure.None? {
        // `return navigate(...)`: neither the create call nor the catch block runs
        return;
      }
    } else if failure.None? {
      trace := trace + [CreatePost(CreatePayload(value, fileUrl, userId))];
      match mutation {
        case Threw(message) => failure := Some(message);
        case Resolved(truthy) =>
          if !truthy {
            trace := trace + [Toast(SoftFailureTitle(action), None)];
          }
          trace := trace + [Navigate("/")];
      }
    }

    if failure.Some? {
      trace := trace + [LogError(failure.value), Toast(HardFailureTitle(action), Some(failure.value))];
    }
  }

  // ---------------------------------------------------------------------------------------
  // What a submission does, proved of every combination of inputs

  lemma OfKindSingle(e: Event, k: Kind)
    ensures OfKind([e], k) == if KindOf(e) == k then [e] else []
  {
    assert [e][1..] == [];
  }

  lemma OfKindPair(x: Event, y: Event, k: Kind)
    ensures OfKind([x, y], k) == (if KindOf(x) == k then [x] else []) + (if KindOf(y) == k then [y] else [])
  {
    assert [x, y][1..] == [y];
    OfKindSingle(y, k);
  }

  lemma UploadProjection(value: PostValue, k: Kind)
    ensures OfKind(UploadStage(value), k) == if k == UploadKind then UploadStage(value) else []
  {
    if |value.file| > 0 {
      OfKindSingle(UploadFile(value.file[0]), k);
    }
  }

  lemma MutationProjection(value: PostValue, action: Action, post: Option<Post>, userId: string,
                           upload: UploadResult, k: Kind)
    ensures OfKind(MutationStage(value, action, post, userId, upload), k)
         == if k == MutationKind then MutationStage(value, action, post, userId, upload) else []
  {
    var m := MutationStage(value, action, post, userId, upload);
    if |m| > 0 {
      assert m == [m[0]];
      OfKindSingle(m[0], k);
    }
  }

  /** The events of each kind in the report stage. */
  function ReportOfKind(value: PostValue, action: Action, post: Option<Post>,
                        upload: UploadResult, mutation: MutationResult, k: Kind): seq<Event>
  {
    match Thrown(value, upload, mutation)
    case Some(message) =>
      if k == LogKind then [LogError(message)]
      else if k == ToastKind then [Toast(HardFailureTitle(action), Some(message))]
      else []
    case None =>
      if k == ToastKind && !mutation.truthy then [Toast(SoftFailureTitle(action), None)]
      else if k == NavigateKind then [Navigate(Destination(action, post))]
      else []
  }

  lemma ReportProjection(value: PostValue, action: Action, post: Option<Post>,
                         upload: UploadResult, mutation: MutationResult, k: Kind)
    ensures OfKind(ReportStage(value, action, post, upload, mutation), k)
         == ReportOfKind(value, action, post, upload, mutation, k)
  {
    match Thrown(value, upload, mutation)
    case Some(message) =>
      OfKindPair(LogError(message), Toast(HardFailureTitle(action), Some(message)), k);
    case None =>
      if mutation.truthy {
        assert ReportStage(value, action, post, upload, mutation) == [Navigate(Destination(action, post))];
        OfKindSingle(Navigate(Destination(action, post)), k);
      } else {
        OfKindPair(Toast(SoftFailureTitle(action), None), Navigate(Destination(action, post)), k);
      }
  }

  /** The events of one kind in a whole submission, stage by stage. */
  lemma Projection(value: PostValue, action: Action, post: Option<Post>, userId: string,
                   upload: UploadResult, mutation: MutationResult, k: Kind)
    ensures OfKind(SubmitTrace(value, action, post, userId, upload, mutation), k)
         == (if k == UploadKind then UploadStage(value) else [])
            + (if k == MutationKind then MutationStage(value, action, post, userId, upload) else [])
            + ReportOfKind(value, action, post, upload, mutation, k)
  {
    var u, m, r := UploadStage(value), MutationStage(value, action, post, userId, upload),
                   ReportStage(value, action, post, upload, mutation);
    OfKindAppend(u + m, r, k);
    OfKindAppend(u, m, k);
    UploadProjection(value, k);
    MutationProjection(value, action, post, userId, upload, k);
    ReportProjection(value, action, post, upload, mutation, k);
  }

  /** Only the first file is uploaded, exactly when there is a file. */
  lemma UploadsFirstFileOnly(value: PostValue, action: Action, post: Option<Post>, userId: string,
                             upload: UploadResult, mutation: MutationResult)
    ensures OfKind(SubmitTrace(value, action, post, userId, upload, mutation), UploadKind)
         == if |value.file| > 0 then [UploadFile(value.file[0])] else []
  {
    Projection(value, action, post, userId, upload, mutation, UploadKind);
  }

  /**
   * A thrown upload stops the submission: no mutation, no navigation, the error logged and one
   * toast titled with the action and described by the thrown message.
   */
  lemma UploadFailureStops(value: PostValue, action: Action, post: Option<Post>, userId: string,
                           upload: UploadResult, mutation: MutationResult)
    requires UploadFails(value, upload)
    ensures var t := SubmitTrace(value, action, post, userId, upload, mutation);
            && OfKind(t, MutationKind) == []
            && OfKind(t, NavigateKind) == []
            && OfKind(t, LogKind) == [LogError(upload.message)]
            && OfKind(t, ToastKind) == [Toast(ActionName(action) + " post failed.", Some(upload.message))]
  {
    Projection(value, action, post, userId, upload, mutation, MutationKind);
    Projection(value, action, post, userId, upload, mutation, NavigateKind);
    Projection(value, action, post, userId, upload, mutation, LogKind);
    Projection(value, action, post, userId, upload, mutation, ToastKind);
  }

  /**
   * At most one mutation per submission: none after a thrown upload, otherwise exactly one,
   * and it is the update exactly on the update path.
   */
  lemma AtMostOneMutation(value: PostValue, action: Action, post: Option<Post>, userId: string,
                          upload: UploadResult, mutation: MutationResult)
    ensures var m := OfKind(SubmitTrace(value, action, post, userId, upload, mutation), MutationKind);
            && |m| == (if UploadFails(value, upload) then 0 else 1)
            && forall i :: 0 <= i < |m| ==> (m[i].UpdatePost? <==> post.Some? && action == Update)
  {
    Projection(value, action, post, userId, upload, mutation, MutationKind);
  }

  /**
   * The update payload: the form value, the new file's URL when non-empty and otherwise the
   * post's current image URL, and empty post and image ids.
   */
  lemma UpdatePayloadSent(value: PostValue, action: Action, post: Option<Post>, userId: string,
                          upload: UploadResult, mutation: MutationResult)
    requires !UploadFails(value, upload) && post.Some? && action == Update
    ensures var m := OfKind(SubmitTrace(value, action, post, userId, upload, mutation), MutationKind);
            && |m| == 1 && m[0].UpdatePost?
            && m[0].update.value == value
            && m[0].update.postId == "" && m[0].update.imageId == ""
            && (|value.file| == 0 ==> m[0].update.image == post.value.imageUrl)
            && (|value.file| > 0 ==>
                  m[0].update.image == if |upload.href| > 0 then upload.href else post.value.imageUrl)
  {
    Projection(value, action, post, userId, upload, mutation, MutationKind);
  }

  /**
   * Every other combination, `Update` without a post included, creates: the form value, the
   * uploaded file's URL or "" without a file, and the signed-in user's id.
   */
  lemma CreatePayloadSent(value: PostValue, action: Action, post: Option<Post>, userId: string,
                          upload: UploadResult, mutation: MutationResult)
    requires !UploadFails(value, upload) && !(post.Some? && action == Update)
    ensures var m := OfKind(SubmitTrace(value, action, post, userId, upload, mutation), MutationKind);
            && |m| == 1 && m[0].CreatePost?
            && m[0].create.value == value
            && m[0].create.image == (if |value.file| > 0 then upload.href else "")
            && m[0].create.userId == userId
  {
    Projection(value, action, post, userId, upload, mutation, MutationKind);
  }

  /**
   * Without an exception, a falsy mutation result adds the "Please try again." toast and
   * navigation follows either way: to the post's page after an update, home after a create.
   */
  lemma SoftFailureNavigates(value: PostValue, action: Action, post: Option<Post>, userId: string,
                             upload: UploadResult, mutation: MutationResult)
    requires !UploadFails(value, upload) && mutation.Resolved?
    ensures var t := SubmitTrace(value, action, post, userId, upload, mutation);
            && OfKind(t, LogKind) == []
            && OfKind(t, ToastKind)
               == (if mutation.truthy then []
                   else [Toast(ActionName(action) + " post failed. Please try again.", None)])
            && OfKind(t, NavigateKind)
               == [Navigate(if post.Some? && action == Update then "/posts/" + post.value.id else "/")]
  {
    Projection(value, action, post, userId, upload, mutation, LogKind);
    Projection(value, action, post, userId, upload, mutation, ToastKind);
    Projection(value, action, post, userId, upload, mutation, NavigateKind);
  }

  /**
   * A thrown mutation comes after exactly one mutation call; it is logged and toasted with its
   * message, and navigation is suppressed.
   */
  lemma MutationFailureStops(value: PostValue, action: Action, post: Option<Post>, userId: string,
                             upload: UploadResult, mutation: MutationResult)
    requires !UploadFails(value, upload) && mutation.Threw?
    ensures var t := SubmitTrace(value, action, post, userId, upload, mutation);
            && |OfKind(t, MutationKind)| == 1
            && OfKind(t, LogKind) == [LogError(mutation.message)]
            && OfKind(t, ToastKind) == [Toast(ActionName(action) + " post failed.", Some(mutation.message))]
            && OfKind(t, NavigateKind) == []
  {
    Projection(value, action, post, userId, upload, mutation, MutationKind);
    Projection(value, action, post, userId, upload, mutation, LogKind);
    Projection(value, action, post, userId, upload, mutation, ToastKind);
    Projection(value, action, post, userId, upload, mutation, NavigateKind);
  }

  /**
   * Soft against hard failure: the handler navigates exactly when nothing was thrown, and the
   * navigation is then its last event.
   */
  lemma NavigatesUnlessThrown(value: PostValue, action: Action, post: Option<Post>, userId: string,
                              upload: UploadResult, mutation: MutationResult)
    ensures var t := SubmitTrace(value, action, post, userId, upload, mutation);
            && (OfKind(t, NavigateKind) == [] <==> UploadFails(value, upload) || mutation.Threw?)
            && (!UploadFails(value, upload) && mutation.Resolved? ==>
                  |t| > 0 && t[|t| - 1] == Navigate(Destination(action, post)))
  {
    Projection(value, action, post, userId, upload, mutation, NavigateKind);
  }

  /** Off the update path, the post and the mode do not change what is called or where it leads. */
  lemma CreatePathIgnoresPost(value: PostValue, action: Action, post: Option<Post>, userId: string,
                              upload: UploadResult, mutation: MutationResult)
    requires !(post.Some? && action == Update)
    ensures var t := SubmitTrace(value, action, post, userId, upload, mutation);
            var c := SubmitTrace(value, Create, None, userId, upload, mutation);
            && OfKind(t, UploadKind) == OfKind(c, UploadKind)
            && OfKind(t, MutationKind) == OfKind(c, MutationKind)
            && OfKind(t, NavigateKind) == OfKind(c, NavigateKind)
  {
    Projection(value, action, post, userId, upload, mutation, UploadKind);
    Projection(value, Create, None, userId, upload, mutation, UploadKind);
    Projection(value, action, post, userId, upload, mutation, MutationKind);
    Projection(value, Create, None, userId, upload, mutation, MutationKind);
    Projection(value, action, post, userId, upload, mutation, NavigateKind);
    Projection(value, Create, None, userId, upload, mutation, NavigateKind);
  }

  /** Stage order is kept by concatenation when every event of the first part is no later. */
  lemma {:induction false} StageOrderAppend(a: seq<Event>, b: seq<Event>)
    requires InStageOrder(a) && InStageOrder(b)
    requires forall i, j :: 0 <= i < |a| && 0 <= j < |b| ==> Stage(a[i]) <= Stage(b[j])
    ensures InStageOrder(a + b)
  {
    forall i, j | 0 <= i < j < |a + b| ensures Stage((a + b)[i]) <= Stage((a + b)[j]) {
      if j < |a| {
      } else if i < |a| {
        assert (a + b)[j] == b[j - |a|];
      } else {
        assert (a + b)[i] == b[i - |a|] && (a + b)[j] == b[j - |a|];
      }
    }
  }

  /**
   * The upload strictly precedes the mutation, which precedes the error log, the toast and
   * the navigation, which comes last.
   */
  lemma StagesInOrder(value: PostValue, action: Action, post: Option<Post>, userId: string,
                      upload: UploadResult, mutation: MutationResult)
    ensures InStageOrder(SubmitTrace(value, action, post, userId, upload, mutation))
  {
    var u, m, r := UploadStage(value), MutationStage(value, action, post, userId, upload),
                   ReportStage(value, action, post, upload, mutation);
    assert |u| <= 1 && (|u| == 1 ==> Stage(u[0]) == 0);
    assert |m| <= 1 && (|m| == 1 ==> Stage(m[0]) == 1);
    match Thrown(value, upload, mutation)
    case Some(message) =>
      assert Stage(r[0]) == 2 && Stage(r[1]) == 3;
    case None =>
      if mutation.truthy {
        assert |r| == 1 && Stage(r[0]) == 4;
      } else {
        assert Stage(r[0]) == 3 && Stage(r[1]) == 4;
      }
    StageOrderAppend(u, m);
    StageOrderAppend(u + m, r);
  }
}
