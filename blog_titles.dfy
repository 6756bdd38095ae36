/** The blog-title page: the keyword guard, the prompt template and the
    extraction of titles from the generated text. */
module BlogTitles {
  import opened Base
  import opened JsString

  const Categories: seq<string> :=
    ["General", "Technology", "Business", "Health", "Lifestyle", "Education", "Travel", "Food"]

  const DefaultCategory: string := "General"

  const KeywordMessage: string := "Please enter a keyword"

  /** The default category is one of the eight distinct listed categories. */
  lemma DefaultCategoryListed()
    ensures |Categories| == 8 && DefaultCategory == Categories[0]
    ensures forall i, j :: 0 <= i < j < |Categories| ==> Categories[i] != Categories[j]
  {
  }

  const PromptLead: string := "Generate 5 creative blog titles about \""
  const PromptMiddle: string := "\" in the \""
  const PromptTail: string := "\" category. Return only the titles, one per line."

  /** The request prompt built from the keyword and the selected category. */
  function TitlePrompt(keyword: string, category: string): (p: string)
    ensures |p| == |PromptLead| + |keyword| + |PromptMiddle| + |category| + |PromptTail|
    ensures p[..|PromptLead|] == PromptLead
    ensures p[|PromptLead|..|PromptLead| + |keyword|] == keyword
    ensures p[|p| - |PromptTail| - |category|..|p| - |PromptTail|] == category
    ensures p[|p| - |PromptTail|..] == PromptTail
  {
    PromptLead + keyword + PromptMiddle + category + PromptTail
  }

  /** For a given category the prompt determines the keyword. */
  lemma TitlePromptDeterminesKeyword(k1: string, k2: string, category: string)
    requires TitlePrompt(k1, category) == TitlePrompt(k2, category)
    ensures k1 == k2
  {
    var p := TitlePrompt(k1, category);
    assert k1 == p[|PromptLead|..|PromptLead| + |k1|];
  }

  /** For a given keyword the prompt determines the category. */
  lemma TitlePromptDeterminesCategory(keyword: string, c1: string, c2: string)
    requires TitlePrompt(keyword, c1) == TitlePrompt(keyword, c2)
    ensures c1 == c2
  {
    var p := TitlePrompt(keyword, c1);
    assert c1 == p[|p| - |PromptTail| - |c1|..|p| - |PromptTail|];
  }

  /** The callback of `.filter(t => t.trim())`. */
  predicate HasText(t: string)
    ensures HasText(t) <==> Trim(t) != []
    ensures HasText(t) <==> exists i :: 0 <= i < |t| && !IsWhiteSpace(t[i])
  {
    !IsBlank(t)
  }

  /** `content.split("\n").filter(t => t.trim())`: each title is a whole,
      untrimmed line of `content` with a non-white-space character, and
      every such line is a title. */
  function ExtractTitles(content: string): (titles: seq<string>)
    ensures forall t :: t in titles <==> t in Split(content, '\n') && !IsBlank(t)
    ensures forall t :: t in titles ==> '\n' !in t
  {
    var parts := Split(content, '\n');
    forall t ensures t in Filter(parts, HasText) <==> t in parts && !IsBlank(t) {
      FilterMembers(parts, HasText, t);
    }
    Filter(parts, HasText)
  }

  /** Titles keep the order of the lines they come from. */
  lemma ExtractTitlesAround(line: string, rest: string)
    requires '\n' !in line
    ensures ExtractTitles(line + "\n" + rest) ==
            (if IsBlank(line) then [] else [line]) + ExtractTitles(rest)
  {
    SplitAround(line, rest, '\n');
    FilterAppend([line], Split(rest, '\n'), HasText);
  }

  /** Non-blank text on one line is exactly one title, the text itself. */
  lemma SingleLineTitle(content: string)
    requires '\n' !in content && !IsBlank(content)
    ensures ExtractTitles(content) == [content]
  {
    SplitWithout(content, '\n');
  }

  /** Blank text yields no titles. */
  lemma BlankContentNoTitles(content: string)
    requires AllWhiteSpace(content)
    ensures ExtractTitles(content) == []
  {
    var parts := Split(content, '\n');
    forall k | 0 <= k < |parts| ensures IsBlank(parts[k]) {
      var line := parts[k];
      forall j | 0 <= j < |line| ensures IsWhiteSpace(line[j]) {
        assert line[j] in content;
        var m :| 0 <= m < |content| && content[m] == line[j];
      }
      assert !HasText(parts[k]);
    }
  }

  /** The form's state that the submit handler reads and writes. */
  datatype BlogForm = BlogForm(keyword: string, category: string, titles: seq<string>)

  /** The page as first rendered: empty keyword, "General", no titles. */
  function InitialForm(): (f: BlogForm)
    ensures f.category in Categories && f.category == DefaultCategory
    ensures f.keyword == [] && f.titles == []
  {
    BlogForm([], DefaultCategory, [])
  }

  datatype Submission = Rejected(message: string) | Sent(prompt: string)

  /** `onSubmitHandler` up to the request: a keyword that is blank after
      trimming is refused before any request; otherwise the prompt is posted. */
  function Submit(f: BlogForm): (r: Submission)
    ensures r.Rejected? <==> AllWhiteSpace(f.keyword)
    ensures r.Rejected? ==> r.message == KeywordMessage
    ensures r.Sent? ==> r.prompt == TitlePrompt(f.keyword, f.category)
  {
    if IsBlank(f.keyword) then Rejected(KeywordMessage)
    else Sent(TitlePrompt(f.keyword, f.category))
  }

  /** The answer of `generate-blog-title`: a JSON body, or a thrown request. */
  datatype Reply =
    | Answered(success: bool, content: string, message: string)
    | Threw(message: string)

  /** The handler once the reply is in: titles change only on `data.success`. */
  function Receive(f: BlogForm, reply: Reply): (g: BlogForm)
    ensures g.keyword == f.keyword && g.category == f.category
    ensures reply.Answered? && reply.success ==> g.titles == ExtractTitles(reply.content)
    ensures !(reply.Answered? && reply.success) ==> g == f
  {
    if reply.Answered? && reply.success then f.(titles := ExtractTitles(reply.content))
    else f
  }
}
