/** The server's AI request handlers, reduced to their own logic: the free-tier
    gate, the row each successful request appends to `creations`, and the
    `free_usage` counter written back to the user's private metadata.
    Every external service (text completion, text-to-image, image hosting,
    PDF text extraction, the SQL insert, the metadata update) is a parameter
    that either returns a value or throws. */
module AiController {
  import opened Base

  type UserId = string
  type ImageData = seq<bv8>

  /** Uses a non-premium caller may make before being refused. */
  const FreeLimit: nat := 10
  const PremiumPlan: string := "premium"
  const LimitMessage: string := "Limit reached. Upgrade to continue."
  const NoResumeMessage: string := "No resume file uploaded."
  const ResumeTooLargeMessage: string := "File size is too large (max 5MB)."
  /** 5 * 1024 * 1024 bytes; a file of exactly this size is accepted. */
  const MaxResumeSize: nat := 5 * 1024 * 1024
  const BackgroundPrompt: string := "Remove background from image"
  const ResumeRecordedPrompt: string := "review the uploaded resume"
  /** The TypeError Node raises when a handler reads `.path` of an absent `req.file`. */
  const NoFileMessage: string := "Cannot read properties of undefined (reading 'path')"

  /** The `type` column. */
  datatype CreationType = Article | BlogTitle | Image | ResumeReview

  /** A row of `creations`. `publish` is None when the INSERT leaves the
      column out and the table's default applies. */
  datatype Creation = Creation(
    userId: UserId,
    prompt: string,
    content: string,
    kind: CreationType,
    publish: Option<bool>)

  /** The JSON body every handler answers with (always HTTP 200). */
  datatype Reply = Success(content: string) | Failure(message: string)

  /** The outcome of an external call: a value, or a thrown error's message. */
  datatype Call<T> = Returned(value: T) | Threw(message: string)

  /** The external services, as they appear in the trace of calls. */
  datatype Service = Completion | TextToImage | Upload | PdfExtract | Insert | UsageUpdate

  /** What the completion client is asked for (the model name and the
      temperature 0.7 are the same in every handler). */
  datatype CompletionRequest = CompletionRequest(prompt: string, maxTokens: int)

  /** `req.file` as the upload middleware leaves it. */
  datatype UploadedFile = UploadedFile(path: string, size: nat)

  /** The quota gate of `generateArticle` and `generateBlogTitle`: any plan
      string other than "premium" is the free tier. */
  predicate Denied(plan: string, freeUsage: nat)
    ensures plan == PremiumPlan ==> !Denied(plan, freeUsage)
    ensures plan != PremiumPlan ==> (Denied(plan, freeUsage) <==> freeUsage >= FreeLimit)
  {
    plan != PremiumPlan && freeUsage >= FreeLimit
  }

  /** `publish ?? false`: an absent flag is stored as false. */
  function StoredPublish(publish: Option<bool>): (stored: bool)
    ensures publish.None? ==> !stored
    ensures publish.Some? ==> stored == publish.value
  {
    match publish
    case None => false
    case Some(b) => b
  }

  /** How a template literal writes a body field: JavaScript renders an
      absent value as "undefined". */
  function Interpolate(v: Option<string>): string {
    match v
    case None => "undefined"
    case Some(s) => s
  }

  /** The prompt recorded for an object removal. */
  function ObjectPrompt(objectName: Option<string>): (p: string)
    ensures objectName.Some? ==> p == "Removed " + objectName.value + " from image"
    ensures objectName.None? ==> p == "Removed undefined from image"
  {
    "Removed " + Interpolate(objectName) + " from image"
  }

  /** The Cloudinary effect asked of the URL builder for an object removal:
      it names the same object as the recorded prompt. */
  function RemovalEffect(objectName: Option<string>): (effect: string)
    ensures var p := ObjectPrompt(objectName); effect == "gen_remove:" + p[8..|p| - 11]
  {
    var p := ObjectPrompt(objectName);
    assert p[8..|p| - 11] == Interpolate(objectName);
    "gen_remove:" + Interpolate(objectName)
  }

  /** The two checks `resumeReview` makes before touching the file:
      presence, then size. None means the file is accepted. */
  function ResumeRejection(file: Option<UploadedFile>): (m: Option<string>)
    ensures file.None? ==> m == Some(NoResumeMessage)
    ensures file.Some? ==> (m.Some? <==> file.value.size > 5242880)
    ensures file.Some? && m.Some? ==> m == Some(ResumeTooLargeMessage)
  {
    match file
    case None => Some(NoResumeMessage)
    case Some(f) => if f.size > MaxResumeSize then Some(ResumeTooLargeMessage) else None
  }

  const ResumePromptHead: string :=
    "Please review my resume below and provide:\n"
    + "1. Strengths and positive aspects.\n"
    + "2. Weaknesses and areas for improvement.\n"
    + "3. Suggestions to make it more impactful and professional.\n"
    + "\n"
    + "Resume content:\n"

  /** The completion prompt for a resume: fixed instructions, the extracted
      text verbatim, and a final newline. */
  function ResumePrompt(text: string): (p: string)
    ensures |p| == |ResumePromptHead| + |text| + 1
    ensures p[..|ResumePromptHead|] == ResumePromptHead
    ensures p[|ResumePromptHead|..|p| - 1] == text
    ensures p[|p| - 1] == '\n'
  {
    ResumePromptHead + text + "\n"
  }

  class Controller {
    /** The rows of `creations`, in insertion order. */
    var creations: seq<Creation>
    /** `privateMetadata.free_usage` per user, as the handlers last wrote it. */
    var freeUsage: map<UserId, nat>
    /** Every external service called, in call order: a record of the
        outside world's view, kept by no running program. */
    ghost var calls: seq<Service>

    /** A handler only ever writes a counter it has let through the gate, so
        no stored counter exceeds the limit. */
    ghost predicate Valid()
      reads this
    {
      forall u :: u in freeUsage ==> freeUsage[u] <= FreeLimit
    }

    constructor ()
      ensures Valid()
      ensures creations == [] && freeUsage == map[] && calls == []
    {
      creations := [];
      freeUsage := map[];
      calls := [];
    }

    /** `generateArticle`: gate, completion with `max_tokens: length`, insert
        of an 'article' row, then for the free tier the counter write
        `free_usage + 1`; the first failure ends the request. */
    method GenerateArticle(
      userId: UserId, plan: string, freeUsageIn: nat, prompt: string, length: int,
      complete: CompletionRequest -> Call<string>, insert: Call<()>, update: Call<()>)
      returns (reply: Reply)
      requires Valid()
      modifies this
      ensures Valid()
      ensures Denied(plan, freeUsageIn) ==>
                reply == Failure(LimitMessage) && calls == old(calls)
                && creations == old(creations) && freeUsage == old(freeUsage)
      ensures var generated := complete(CompletionRequest(prompt, length));
        !Denied(plan, freeUsageIn) ==>
          && (generated.Threw? ==>
                reply == Failure(generated.message) && calls == old(calls) + [Completion]
                && creations == old(creations) && freeUsage == old(freeUsage))
          && (generated.Returned? && insert.Threw? ==>
                reply == Failure(insert.message) && calls == old(calls) + [Completion, Insert]
                && creations == old(creations) && freeUsage == old(freeUsage))
          && (generated.Returned? && insert.Returned? ==>
                creations == old(creations) + [Creation(userId, prompt, generated.value, Article, None)])
          && (generated.Returned? && insert.Returned? && plan == PremiumPlan ==>
                reply == Success(generated.value) && calls == old(calls) + [Completion, Insert]
                && freeUsage == old(freeUsage))
          && (generated.Returned? && insert.Returned? && plan != PremiumPlan ==>
                calls == old(calls) + [Completion, Insert, UsageUpdate]
                && reply == (if update.Returned? then Success(generated.value) else Failure(update.message))
                && freeUsage == (if update.Returned? then old(freeUsage)[userId := freeUsageIn + 1]
                                 else old(freeUsage)))
    {
      if plan != PremiumPlan && freeUsageIn >= FreeLimit {
        return Failure(LimitMessage);
      }
      calls := calls + [Completion];
      var generated := complete(CompletionRequest(prompt, length));
      if generated.Threw? {
        return Failure(generated.message);
      }
      var content := generated.value;
      calls := calls + [Insert];
      if insert.Threw? {
        return Failure(insert.message);
      }
      creations := creations + [Creation(userId, prompt, content, Article, None)];
      if plan != PremiumPlan {
        calls := calls + [UsageUpdate];
        if update.Threw? {
          return Failure(update.message);
        }
        freeUsage := freeUsage[userId := freeUsageIn + 1];
      }
      reply := Success(content);
    }

    /** `generateBlogTitle`: as `GenerateArticle`, with `max_tokens: 100`
        and a 'blog-title' row. */
    method GenerateBlogTitle(
      userId: UserId, plan: string, freeUsageIn: nat, prompt: string,
      complete: CompletionRequest -> Call<string>, insert: Call<()>, update: Call<()>)
      returns (reply: Reply)
      requires Valid()
      modifies this
      ensures Valid()
      ensures Denied(plan, freeUsageIn) ==>
                reply == Failure(LimitMessage) && calls == old(calls)
                && creations == old(creations) && freeUsage == old(freeUsage)
      ensures var generated := complete(CompletionRequest(prompt, 100));
        !Denied(plan, freeUsageIn) ==>
          && (generated.Threw? ==>
                reply == Failure(generated.message) && calls == old(calls) + [Completion]
                && creations == old(creations) && freeUsage == old(freeUsage))
          && (generated.Returned? && insert.Threw? ==>
                reply == Failure(insert.message) && calls == old(calls) + [Completion, Insert]
                && creations == old(creations) && freeUsage == old(freeUsage))
          && (generated.Returned? && insert.Returned? ==>
                creations == old(creations) + [Creation(userId, prompt, generated.value, BlogTitle, None)])
          && (generated.Returned? && insert.Returned? && plan == PremiumPlan ==>
                reply == Success(generated.value) && calls == old(calls) + [Completion, Insert]
                && freeUsage == old(freeUsage))
          && (generated.Returned? && insert.Returned? && plan != PremiumPlan ==>
                calls == old(calls) + [Completion, Insert, UsageUpdate]
                && reply == (if update.Returned? then Success(generated.value) else Failure(update.message))
                && freeUsage == (if update.Returned? then old(freeUsage)[userId := freeUsageIn + 1]
                                 else old(freeUsage)))
    {
      if plan != PremiumPlan && freeUsageIn >= FreeLimit {
        return Failure(LimitMessage);
      }
      calls := calls + [Completion];
      var generated := complete(CompletionRequest(prompt, 100));
      if generated.Threw? {
        return Failure(generated.message);
      }
      var content := generated.value;
      calls := calls + [Insert];
      if insert.Threw? {
        return Failure(insert.message);
      }
      creations := creations + [Creation(userId, prompt, content, BlogTitle, None)];
      if plan != PremiumPlan {
        calls := calls + [UsageUpdate];
        if update.Threw? {
          return Failure(update.message);
        }
        freeUsage := freeUsage[userId := freeUsageIn + 1];
      }
      reply := Success(content);
    }

    /** `generateImage`: no gate and no counter; text-to-image, upload of the
        picture, insert of an 'image' row carrying `publish ?? false`. */
    method GenerateImage(
      userId: UserId, plan: string, prompt: string, publish: Option<bool>,
      textToImage: string -> Call<ImageData>, upload: ImageData -> Call<string>, insert: Call<()>)
      returns (reply: Reply)
      requires Valid()
      modifies this
      ensures Valid() && freeUsage == old(freeUsage)
      ensures textToImage(prompt).Threw? ==>
                reply == Failure(textToImage(prompt).message) && calls == old(calls) + [TextToImage]
                && creations == old(creations)
      ensures var picture := textToImage(prompt);
        picture.Returned? ==>
          var hosted := upload(picture.value);
          && (hosted.Threw? ==>
                reply == Failure(hosted.message) && calls == old(calls) + [TextToImage, Upload]
                && creations == old(creations))
          && (hosted.Returned? && insert.Threw? ==>
                reply == Failure(insert.message) && calls == old(calls) + [TextToImage, Upload, Insert]
                && creations == old(creations))
          && (hosted.Returned? && insert.Returned? ==>
                reply == Success(hosted.value) && calls == old(calls) + [TextToImage, Upload, Insert]
                && creations == old(creations) + [Creation(userId, prompt, hosted.value, Image, Some(StoredPublish(publish)))])
    {
      calls := calls + [TextToImage];
      var picture := textToImage(prompt);
      if picture.Threw? {
        return Failure(picture.message);
      }
      calls := calls + [Upload];
      var hosted := upload(picture.value);
      if hosted.Threw? {
        return Failure(hosted.message);
      }
      calls := calls + [Insert];
      if insert.Threw? {
        return Failure(insert.message);
      }
      creations := creations + [Creation(userId, prompt, hosted.value, Image, Some(StoredPublish(publish)))];
      reply := Success(hosted.value);
    }

    /** `removeImageBackground`: no gate and no counter; upload with the
        background-removal transformation, insert of an 'image' row with the
        fixed prompt. Without a file, reading its path throws first. */
    method RemoveImageBackground(
      userId: UserId, plan: string, file: Option<UploadedFile>,
      upload: UploadedFile -> Call<string>, insert: Call<()>)
      returns (reply: Reply)
      requires Valid()
      modifies this
      ensures Valid() && freeUsage == old(freeUsage)
      ensures file.None? ==>
                reply == Failure(NoFileMessage) && calls == old(calls) && creations == old(creations)
      ensures file.Some? && upload(file.value).Threw? ==>
                reply == Failure(upload(file.value).message) && calls == old(calls) + [Upload]
                && creations == old(creations)
      ensures file.Some? && upload(file.value).Returned? && insert.Threw? ==>
                reply == Failure(insert.message) && calls == old(calls) + [Upload, Insert]
                && creations == old(creations)
      ensures file.Some? && upload(file.value).Returned? && insert.Returned? ==>
                var url := upload(file.value).value;
                reply == Success(url) && calls == old(calls) + [Upload, Insert]
                && creations == old(creations) + [Creation(userId, BackgroundPrompt, url, Image, None)]
    {
      if file.None? {
        return Failure(NoFileMessage);
      }
      calls := calls + [Upload];
      var hosted := upload(file.value);
      if hosted.Threw? {
        return Failure(hosted.message);
      }
      calls := calls + [Insert];
      if insert.Threw? {
        return Failure(insert.message);
      }
      creations := creations + [Creation(userId, BackgroundPrompt, hosted.value, Image, None)];
      reply := Success(hosted.value);
    }

    /** `removeImageObject`: no gate and no counter; upload, then a URL that
        asks for the `gen_remove` effect on the named object, insert of an
        'image' row with the prompt "Removed <object> from image". The server
        does not check the object name. */
    method RemoveImageObject(
      userId: UserId, plan: string, objectName: Option<string>, file: Option<UploadedFile>,
      upload: UploadedFile -> Call<string>, urlFor: (string, string) -> string, insert: Call<()>)
      returns (reply: Reply)
      requires Valid()
      modifies this
      ensures Valid() && freeUsage == old(freeUsage)
      ensures file.None? ==>
                reply == Failure(NoFileMessage) && calls == old(calls) && creations == old(creations)
      ensures file.Some? && upload(file.value).Threw? ==>
                reply == Failure(upload(file.value).message) && calls == old(calls) + [Upload]
                && creations == old(creations)
      ensures file.Some? && upload(file.value).Returned? && insert.Threw? ==>
                reply == Failure(insert.message) && calls == old(calls) + [Upload, Insert]
                && creations == old(creations)
      ensures file.Some? && upload(file.value).Returned? && insert.Returned? ==>
                var url := urlFor(upload(file.value).value, RemovalEffect(objectName));
                reply == Success(url) && calls == old(calls) + [Upload, Insert]
                && creations == old(creations) + [Creation(userId, ObjectPrompt(objectName), url, Image, None)]
    {
      if file.None? {
        return Failure(NoFileMessage);
      }
      calls := calls + [Upload];
      var hosted := upload(file.value);
      if hosted.Threw? {
        return Failure(hosted.message);
      }
      var imageUrl := urlFor(hosted.value, RemovalEffect(objectName));
      calls := calls + [Insert];
      if insert.Threw? {
        return Failure(insert.message);
      }
      creations := creations + [Creation(userId, ObjectPrompt(objectName), imageUrl, Image, None)];
      reply := Success(imageUrl);
    }

    /** `resumeReview`: no gate and no counter; presence and size checks
        before anything else, then text extraction, a completion with
        `max_tokens: 1000`, and insert of a 'resume-review' row with a fixed
        prompt. */
    method ResumeReview(
      userId: UserId, plan: string, file: Option<UploadedFile>,
      extract: UploadedFile -> Call<string>, complete: CompletionRequest -> Call<string>, insert: Call<()>)
      returns (reply: Reply)
      requires Valid()
      modifies this
      ensures Valid() && freeUsage == old(freeUsage)
      ensures ResumeRejection(file).Some? ==>
                reply == Failure(ResumeRejection(file).value) && calls == old(calls)
                && creations == old(creations)
      ensures ResumeRejection(file).None? && extract(file.value).Threw? ==>
                reply == Failure(extract(file.value).message) && calls == old(calls) + [PdfExtract]
                && creations == old(creations)
      ensures ResumeRejection(file).None? && extract(file.value).Returned? ==>
                var generated := complete(CompletionRequest(ResumePrompt(extract(file.value).value), 1000));
                && (generated.Threw? ==>
                      reply == Failure(generated.message) && calls == old(calls) + [PdfExtract, Completion]
                      && creations == old(creations))
                && (generated.Returned? && insert.Threw? ==>
                      reply == Failure(insert.message) && calls == old(calls) + [PdfExtract, Completion, Insert]
                      && creations == old(creations))
                && (generated.Returned? && insert.Returned? ==>
                      reply == Success(generated.value) && calls == old(calls) + [PdfExtract, Completion, Insert]
                      && creations == old(creations) +
                           [Creation(userId, ResumeRecordedPrompt, generated.value, CreationType.ResumeReview, None)])
    {
      if file.None? {
        return Failure(NoResumeMessage);
      }
      if file.value.size > MaxResumeSize {
        return Failure(ResumeTooLargeMessage);
      }
      calls := calls + [PdfExtract];
      var text := extract(file.value);
      if text.Threw? {
        return Failure(text.message);
      }
      calls := calls + [Completion];
      var generated := complete(CompletionRequest(ResumePrompt(text.value), 1000));
      if generated.Threw? {
        return Failure(generated.message);
      }
      calls := calls + [Insert];
      if insert.Threw? {
        return Failure(insert.message);
      }
      creations := creations + [Creation(userId, ResumeRecordedPrompt, generated.value, CreationType.ResumeReview, None)];
      reply := Success(generated.value);
    }
  }

  /** Two requests in a row from a free user whose counter is read fresh
      each time: the tenth use succeeds and records one article, the next
      request is refused without calling anything. */
  method FreeTierReachesLimit()
  {
    var controller := new Controller();
    var hello := (r: CompletionRequest) => Returned("Hello");
    var first := controller.GenerateArticle("u", "free", 9, "Write about Dafny", 400, hello, Returned(()), Returned(()));
    assert first == Success("Hello");
    assert controller.creations == [Creation("u", "Write about Dafny", "Hello", Article, None)];
    assert controller.freeUsage["u"] == 10;
    var second := controller.GenerateBlogTitle("u", "free", controller.freeUsage["u"], "Titles", hello, Returned(()), Returned(()));
    assert second == Failure(LimitMessage);
    assert |controller.creations| == 1 && controller.calls == [Completion, Insert, UsageUpdate];
  }
}
