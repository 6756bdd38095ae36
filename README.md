# QuickAI: free-tier gate, creation recorder and client list logic, in Dafny

QuickAI is a web application that sells AI content generation: articles, blog
titles, images, background and object removal, and resume reviews. Most of the
code forwards requests to outside services. This project models the parts that
make decisions of their own, and proves properties about them:

- **The server's AI handlers** (`ai_controller.dfy`, module `AiController`).
  These are `generateArticle`, `generateBlogTitle`, `generateImage`,
  `removeImageBackground`, `removeImageObject` and `resumeReview`.
  - Class `Controller` holds three things: the `creations` table as a sequence
    of rows, each user's `free_usage` counter as a map, and the trace `calls`
    of the external services invoked, in order.
  - Each handler is a method. Its contract states the reply and the whole new
    state for every way the request can end.
  - The article and blog-title handlers refuse a non-premium caller whose
    counter is at 10 or more. The refusal comes before any external call.
  - On success a handler appends exactly one row. Only a non-premium caller of
    the two gated handlers has their counter rewritten, to the value read plus
    one, and only after the insert.
  - The invariant `Valid` states that no handler ever writes a counter above 10.
- **The community gallery's like toggle** (`community.dfy`). This is the
  optimistic update of `toggleLike`, plus the `liked` flag and the like count
  the page shows.
- **The dashboard** (`dashboard.dfy`). This is the `reduce` that totals the
  likes, the rule that fetched state changes only on `success`, and the plan
  label.
- **The blog-title page** (`blog_titles.dfy`). This is the blank-keyword guard,
  the prompt template, and the `split("\n").filter(t => t.trim())` title
  extraction.
- **The object-removal page** (`remove_object.dfy`). This is the submit-time
  validation (missing file, blank name, and the single-word rule
  `split(" ").length > 1`), the posted payload, and file choice clearing the
  previous result.

Shared pieces:
- `client_creation.dfy` holds the creation record as the client receives it.
  Its `likes` array may be missing.
- `jsstring.dfy` models the JavaScript `trim` and `split` that the pages use.
  The white-space set is ECMAScript's WhiteSpace and LineTerminator code points.
- `base.dfy` holds `Option`, occurrence counting and `filter`.

### External calls and notes on the code's behaviour

Every outside service is a parameter of the handler that uses it. A service
either returns a value or throws a message (`Call<T>`). The services are text
completion, text-to-image, Cloudinary upload and URL building, PDF text
extraction, the SQL insert and the Clerk metadata update. A
generator receives its request (prompt and `max_tokens`), so the recorded
content is tied to the prompt it was asked for. The caller's `plan` and
`free_usage`, which middleware not shown here puts on the request, are
inputs. `free_usage` is a natural number.

Points of the code's behaviour that the model keeps:
- The plan is any string. Everything except `"premium"` is the free tier.
- Only the article and blog-title handlers check or bump the counter. The
  image, background, object and resume handlers read `plan` and ignore it.
- Only `generateImage` writes the `publish` column. The other inserts leave it
  out, so rows record `publish` as `None` ("column default"), not `false`.
- The counter update is its own failure point. If it throws after the insert,
  the row stays, the counter is unchanged and the reply is a failure.
- The server does not check the object name. The single-word rule exists only
  on the client page.
- Without an uploaded file, the background and object handlers fail. They read
  `.path` of `undefined`, and the TypeError message becomes the reply.

## Model

| member | source | states |
|---|---|---|
| `AiController.Controller.GenerateArticle` | server/controllers/aiController.js:24-61 | refused with "Limit reached. Upgrade to continue." exactly when plan is not "premium" and free_usage >= 10, with no call, row or counter change; otherwise the completion is asked for (prompt, length); each later failure replies with its message and stops; success appends one 'article' row (caller, prompt, generated text) and, for non-premium callers only, then writes free_usage + 1 for that user; `Valid` (no counter above 10) is kept |
| `AiController.Controller.GenerateBlogTitle` | server/controllers/aiController.js:63-100 | the same gate, order and counter rule as the article handler, with max_tokens 100 and a 'blog-title' row |
| `AiController.Controller.GenerateImage` | server/controllers/aiController.js:102-139 | no gate and counters unchanged; text-to-image, then upload, then insert, each failure ending the request; success appends one 'image' row with the hosted URL and `publish ?? false`, and replies with the URL |
| `AiController.Controller.RemoveImageBackground` | server/controllers/aiController.js:141-163 | no gate and counters unchanged; without a file it fails before any call; success appends an 'image' row with prompt "Remove background from image" and the hosted URL |
| `AiController.Controller.RemoveImageObject` | server/controllers/aiController.js:165-185 | no gate and counters unchanged; without a file it fails before any call; success appends an 'image' row with prompt "Removed <object> from image" and the URL built with effect `gen_remove:<object>` |
| `AiController.Controller.ResumeReview` | server/controllers/aiController.js:187-242 | no gate and counters unchanged; a missing file and then a file over 5242880 bytes are refused before extraction, completion or insert; otherwise extract, complete with the resume prompt and max_tokens 1000, and append a 'resume-review' row with prompt "review the uploaded resume" |
| `AiController.Denied` | server/controllers/aiController.js:30 | a premium plan is never refused; any other plan is refused exactly when free_usage is 10 or more (the blog-title handler repeats the same test at line 69) |
| `AiController.RemovalEffect` | server/controllers/aiController.js:174 | the URL effect is "gen_remove:" followed by the same object text that the recorded prompt names |
| `AiController.StoredPublish` | server/controllers/aiController.js:130-132 | an absent publish flag is stored as false, a present one as given |
| `AiController.ObjectPrompt` | server/controllers/aiController.js:178 | the recorded prompt is "Removed " + object + " from image", and "Removed undefined from image" when the field is absent |
| `AiController.ResumeRejection` | server/controllers/aiController.js:193-205 | no file gives "No resume file uploaded."; otherwise a file is refused exactly when its size exceeds 5242880, with "File size is too large (max 5MB).", so exactly 5 MiB is accepted |
| `AiController.ResumePrompt` | server/controllers/aiController.js:213-220 | the prompt is the fixed instructions, then the extracted text verbatim, then a newline |
| `ClientCreation.LikeCount` | client/src/pages/Community.jsx:148 | the shown count is the length of `likes`, or 0 when `likes` is missing |
| `Community.Liked` | client/src/pages/Community.jsx:113 | the heart is filled exactly when `likes` is present and holds the user at least once, and then the shown count is positive |
| `Community.Without` | client/src/pages/Community.jsx:49 | unliking removes every occurrence of the user, keeps every other id's occurrences, and shortens the list by the user's count |
| `Base.FilterAppend` | client/src/pages/Community.jsx:49 | `filter` distributes over concatenation, so the remaining ids (and titles) keep their relative order |
| `Community.ToggledLikes` | client/src/pages/Community.jsx:48-50 | after a toggle the user is in `likes` exactly when it was not before; liking appends the user at the end; membership of every other id is unchanged |
| `Community.ToggleTwiceFromUnliked` | client/src/pages/Community.jsx:48-50 | liking then unliking restores the exact original list |
| `Community.ToggleTwiceFromLiked` | client/src/pages/Community.jsx:48-50 | unliking then liking restores the membership of every id |
| `Community.ToggleTwiceReorders` | client/src/pages/Community.jsx:48-50 | unliking then liking need not restore the list: ["a","b"] becomes ["b","a"] |
| `Community.ToggleItem` | client/src/pages/Community.jsx:44-53 | items with another id are returned unchanged; the matching item gets toggled `likes` and keeps every other field; it throws (None) exactly when it has no `likes` array |
| `Community.ToggleLike` | client/src/pages/Community.jsx:43-54 | the update succeeds exactly when every item with the id has a `likes` array, and then keeps the length and maps each item position by position |
| `Community.ToggleLikeEffect` | client/src/pages/Community.jsx:43-54 | after a toggle: other items are identical; for the toggled one only `likes` changes, the liked flag flips, and the count rises by one or falls by the user's occurrences |
| `Dashboard.ReduceLikes` | client/src/pages/Dashboard.jsx:31-34 | the fold of an empty list is its start value; otherwise it is at least the start value plus the first creation's like count |
| `Dashboard.ReduceIsSum` | client/src/pages/Dashboard.jsx:31-34 | the left fold `reduce` started at any value equals that value plus the sum of the like counts |
| `Dashboard.TotalLikes` | client/src/pages/Dashboard.jsx:31-34 | total likes equal the sum of the like counts, with a missing `likes` counting 0; an empty list totals 0 |
| `Dashboard.TotalLikesAppend` | client/src/pages/Dashboard.jsx:31-34 | total likes are additive over concatenation of creation lists |
| `Dashboard.TotalLikesCovers` | client/src/pages/Dashboard.jsx:31-34 | every creation's like count is at most the total |
| `Dashboard.Receive` | client/src/pages/Dashboard.jsx:27-38 | creations and total likes are replaced only on `data.success`; otherwise the state is unchanged |
| `Dashboard.IsPremium` | client/src/pages/Dashboard.jsx:51 | an absent plan is never premium; premium means the plan is present and equal to "premium"; the comparison is case-sensitive, so "Premium" is not premium |
| `Dashboard.PlanLabel` | client/src/pages/Dashboard.jsx:51-85 | the label is "Premium" exactly when the plan is present and equal to "premium", else "Free" |
| `BlogTitles.DefaultCategoryListed` | client/src/pages/BlogTitles.jsx:10-22 | there are 8 distinct categories and the default "General" is the first |
| `BlogTitles.InitialForm` | client/src/pages/BlogTitles.jsx:21-23 | the form starts with an empty keyword, the listed default category and no titles |
| `BlogTitles.TitlePrompt` | client/src/pages/BlogTitles.jsx:37 | the prompt is the fixed template with the keyword verbatim after its opening quote and the category verbatim before its closing part |
| `BlogTitles.TitlePromptDeterminesKeyword` | client/src/pages/BlogTitles.jsx:37 | for a given category, two equal prompts come from the same keyword |
| `BlogTitles.TitlePromptDeterminesCategory` | client/src/pages/BlogTitles.jsx:37 | for a given keyword, two equal prompts come from the same category |
| `BlogTitles.Submit` | client/src/pages/BlogTitles.jsx:28-47 | refused with "Please enter a keyword" and no request exactly when the keyword is all white space; otherwise the templated prompt is posted |
| `BlogTitles.HasText` | client/src/pages/BlogTitles.jsx:50 | a line is kept exactly when its trim is non-empty, which is exactly when it has a non-white-space character |
| `BlogTitles.ExtractTitles` | client/src/pages/BlogTitles.jsx:50 | a string is a title exactly when it is a "\n"-separated segment of the content with a non-white-space character; no title contains "\n" |
| `BlogTitles.ExtractTitlesAround` | client/src/pages/BlogTitles.jsx:50 | titles follow the order of their lines: the first line, if not blank, comes before the titles of the rest |
| `BlogTitles.SingleLineTitle` | client/src/pages/BlogTitles.jsx:50 | non-blank content without a newline yields exactly one title, the content itself, untrimmed |
| `BlogTitles.BlankContentNoTitles` | client/src/pages/BlogTitles.jsx:50 | all-white-space content yields no titles |
| `BlogTitles.Receive` | client/src/pages/BlogTitles.jsx:49-55 | titles are replaced by the extracted titles only on `data.success`; otherwise the form is unchanged |
| `JsString.Trim` | client/src/pages/BlogTitles.jsx:30 | `trim` returns a slice of the input with only white space cut from either end, and the result starts and ends without white space |
| `JsString.IsBlank` | client/src/pages/BlogTitles.jsx:30 | `!s.trim()` holds exactly when every character of s is white space (the object-name guard in RemoveObject.jsx:25 uses the same test) |
| `JsString.Split` | client/src/pages/BlogTitles.jsx:50 | `split` gives one more segment than there are separators, and no segment contains the separator |
| `JsString.JoinSplit` | client/src/pages/BlogTitles.jsx:50 | joining the segments with the separator gives back the original string |
| `JsString.SplitAround` | client/src/pages/BlogTitles.jsx:50 | splitting a line, a separator and a rest gives the line followed by the segments of the rest |
| `JsString.SeveralSegmentsIff` | client/src/pages/RemoveObject.jsx:32 | `s.split(sep).length > 1` holds exactly when s contains sep |
| `RemoveObject.ChooseFile` | client/src/pages/RemoveObject.jsx:17-20 | choosing a file replaces the selection and clears any previous result |
| `RemoveObject.Submit` | client/src/pages/RemoveObject.jsx:22-41 | refused exactly when there is no file, the name is all white space, or the untrimmed name contains U+0020; the first two leave the form unchanged, the third resets `loading`; an accepted name is posted unmodified with the file as `image` |
| `RemoveObject.SpaceSeparatedRefused` | client/src/pages/RemoveObject.jsx:32-36 | "watch chair" and "watch " are refused with "Please enter only a single object name." and `loading` false |
| `RemoveObject.TabSeparatedPosted` | client/src/pages/RemoveObject.jsx:32-39 | "watch\tchair" is posted: tabs do not count as separators |
| `RemoveObject.Receive` | client/src/pages/RemoveObject.jsx:47-59 | the result is shown only on `data.success`, and `loading` is cleared in every case |

## Left out

- The external services themselves are not modelled: OpenAI/Gemini completion, Clipdrop, Cloudinary upload and URL building, `pdf-parse` with `fs.readFileSync`, the SQL client and Clerk's `updateUserMetadata`. Each is a parameter that returns a value or throws. The model name and temperature 0.7 are not modelled, and neither is the base64 encoding of the generated image before upload (the upload parameter takes the image bytes).
- A completion response without `choices[0]` or without its `.message` throws in the code (aiController.js:47, :86, :230). A response whose `.message.content` is null or absent does not throw: the code still tries the insert, and for the gated handlers it still bumps the counter. The model has no such response. A completion either returns a string or throws, so it folds that path into a thrown completion.
- A failed file read and a failed parse in the resume handler count as one thrown extraction.
- `req.auth()` and the middleware that sets `req.plan` and `req.free_usage` are not part of this model. The user id, plan and counter are inputs.
- Requests are sequential. With concurrent requests, two of them can read the same counter before either writes it, and the model does not capture that race. It does show the write is "value read + 1", not an increment of the stored value.
- Logging, HTTP status codes (always 200) and the Express wiring in `server/server.js` are left out as plumbing.
- `generateImage` stores a non-boolean `publish` as given. The model only takes a boolean or an absent flag.
- Community: the like-toggle POST, the re-fetch after a failed toggle, `fetchImages`, `likeLoading` and a missing signed-in user are left out. They are requests and UI state. The user id is an input.
- Community: the toggle's TypeError on an item without `likes` is modelled as "no new gallery". In the app React surfaces the error.
- Dashboard: "Total Creations" is `creations.length` of the state. It is not a separate function. Loading flags and rendering are left out.
- BlogTitles: the `loading` flag, toasts and a thrown request's message are left out as UI.
- The other pages (`GenerateImages.jsx`, `RemoveBackground.jsx`, `ReviewResume.jsx`) and the components `Sidebar.jsx` and `CreationItem.jsx` are not part of this model. They render and post, with at most one empty-input check.
