/** The JSON importer of the form builder: pasted text or an uploaded file
    is parsed, checked for a `questions` array, and each entry is turned
    into a question with defaults filled in. Parsing itself is a library
    call; the model starts from the parsed value. */
module JsonUploader {
  import opened Wrappers
  import opened Strings
  import opened JsValues
  import opened Types

  const NO_QUESTIONS := "JSON must have a 'questions' array"
  const ENTER_TEXT := "Please enter JSON text"
  const NOT_JSON_FILE := "Please upload a JSON file"
  const READ_FAILED := "Failed to read file"
  const JSON_TYPE := "application/json"

  /** An error shown by the importer: one of its own messages, or the
      message of an error the JavaScript engine raised (a syntax error of
      `JSON.parse`, or the TypeError of reading a property of `null`), whose
      wording the model does not fix. */
  datatype ImportError = Message(text: string) | EngineError

  /** An imported question with its fields as the JSON gave them, after the
      defaults: the random id, the empty form id and the timestamp are left
      to the caller. */
  datatype ImportedQuestion = ImportedQuestion(
    questionText: JsVal,
    questionId: JsVal,
    questionType: JsVal,
    options: JsVal,
    isRequired: JsVal,
    orderNumber: nat,
    placeholder: JsVal)

  datatype Imported = Imported(questions: seq<ImportedQuestion>, formTitle: JsVal,
                               formDescription: JsVal)

  /** `a || b`. */
  function Or(a: JsVal, b: JsVal): (r: JsVal)
    ensures Truthy(a) ==> r == a
    ensures !Truthy(a) ==> r == b
  {
    if Truthy(a) then a else b
  }

  /** `a ?? b`. */
  function Coalesce(a: JsVal, b: JsVal): (r: JsVal)
    ensures a != Undef && a != Null ==> r == a
    ensures a == Undef || a == Null ==> r == b
  {
    if a == Undef || a == Null then b else a
  }

  /** A property of a value that is neither `null` nor `undefined`. */
  function Get(v: JsVal, name: string): JsVal
    requires v != Undef && v != Null
  {
    Prop(v, name).value
  }

  /** The question built from entry `q` at position `index`, or `None` for
      the TypeError of an entry that is `null` or `undefined`. */
  function ImportQuestion(q: JsVal, index: nat): (r: Option<ImportedQuestion>)
    ensures r.None? <==> q == Undef || q == Null
  {
    if q == Undef || q == Null then None
    else Some(ImportedQuestion(
      Or(Get(q, "question_text"), Or(Get(q, "question"), Str(""))),
      Or(Get(q, "question_id"), Str(DefaultQuestionId(index))),
      Or(Get(q, "question_type"), Str("text")),
      Or(Get(q, "options"), Null),
      Coalesce(Get(q, "is_required"), Bool(true)),
      index + 1,
      Or(Get(q, "placeholder"), Null)))
  }

  /** `questions.map(...)`, which stops at the first entry that throws. */
  function ImportAll(qs: seq<JsVal>): (r: Option<seq<ImportedQuestion>>)
    ensures r.None? <==> exists i :: 0 <= i < |qs| && (qs[i] == Undef || qs[i] == Null)
    ensures r.Some? ==> |r.value| == |qs|
    ensures r.Some? ==> forall i :: 0 <= i < |qs| ==> ImportQuestion(qs[i], i) == Some(r.value[i])
  {
    if qs == [] then Some([])
    else
      var init := qs[..|qs| - 1];
      var last := qs[|qs| - 1];
      assert forall i :: 0 <= i < |init| ==> init[i] == qs[i];
      match ImportAll(init)
      case None => None
      case Some(done) =>
        match ImportQuestion(last, |qs| - 1)
        case None => None
        case Some(q) => Some(done + [q])
  }

  /** What `processJson` produces from the parsed value `data`. */
  function ProcessParsed(data: JsVal): (r: Result<Imported, ImportError>)
  {
    if data == Undef || data == Null then Err(EngineError)
    else
      var qs := Get(data, "questions");
      if !Truthy(qs) || !qs.Arr? then Err(Message(NO_QUESTIONS))
      else match ImportAll(qs.elems)
        case None => Err(EngineError)
        case Some(questions) =>
          Ok(Imported(questions,
                           Or(Get(data, "form_title"), Get(data, "title")),
                           Or(Get(data, "form_description"), Get(data, "description"))))
  }

  /** Data without a `questions` array is refused with the importer's own
      message; with one, every entry keeps its position. */
  lemma ProcessParsedSpec(data: JsVal)
    requires data != Undef && data != Null
    ensures !Get(data, "questions").Arr? <==> ProcessParsed(data) == Err(Message(NO_QUESTIONS))
    ensures ProcessParsed(data).Ok? ==>
              Get(data, "questions").Arr? &&
              |ProcessParsed(data).value.questions| == |Get(data, "questions").elems|
  {
  }

  /** Each imported question has order number `i + 1`; every field keeps
      the entry's value when that is set. The id falls back to `q_{i+1}`;
      the text falls back to `question`, then to the empty string; the type
      to `text`; options and placeholder to `null`; `is_required` keeps any
      value but `null` and `undefined`, so an explicit `false` survives,
      while a missing or `null` one becomes true. */
  lemma ImportedQuestionSpec(data: JsVal, i: nat)
    requires ProcessParsed(data).Ok?
    requires i < |ProcessParsed(data).value.questions|
    ensures data != Undef && data != Null && Get(data, "questions").Arr?
    ensures var q := Get(data, "questions").elems[i];
            var r := ProcessParsed(data).value.questions[i];
            q != Undef && q != Null &&
            r.orderNumber == i + 1 &&
            r.questionId == (if Truthy(Get(q, "question_id")) then Get(q, "question_id")
                             else Str(DefaultQuestionId(i))) &&
            r.questionText == (if Truthy(Get(q, "question_text")) then Get(q, "question_text")
                               else if Truthy(Get(q, "question")) then Get(q, "question")
                               else Str("")) &&
            r.questionType == (if Truthy(Get(q, "question_type")) then Get(q, "question_type")
                               else Str("text")) &&
            r.options == (if Truthy(Get(q, "options")) then Get(q, "options") else Null) &&
            r.isRequired == (if Get(q, "is_required") == Undef || Get(q, "is_required") == Null
                             then Bool(true) else Get(q, "is_required")) &&
            r.placeholder == (if Truthy(Get(q, "placeholder")) then Get(q, "placeholder") else Null)
  {
    var qs := Get(data, "questions").elems;
    assert ImportQuestion(qs[i], i) == Some(ProcessParsed(data).value.questions[i]);
  }

  /** Entries without ids of their own end up with pairwise different ids. */
  lemma DefaultIdsDistinct(data: JsVal, i: nat, j: nat)
    requires ProcessParsed(data).Ok?
    requires i < j < |ProcessParsed(data).value.questions|
    requires data != Undef && data != Null && Get(data, "questions").Arr?
    requires !Truthy(Get(Get(data, "questions").elems[i], "question_id")) &&
             !Truthy(Get(Get(data, "questions").elems[j], "question_id"))
    ensures ProcessParsed(data).value.questions[i].questionId !=
            ProcessParsed(data).value.questions[j].questionId
  {
    ImportedQuestionSpec(data, i);
    ImportedQuestionSpec(data, j);
    DefaultQuestionIdInjective(i, j);
  }

  class Uploader {
    var error: Option<ImportError>
    var isLoading: bool
    var jsonText: string

    constructor()
      ensures error.None? && !isLoading && jsonText == ""
    {
      error := None;
      isLoading := false;
      jsonText := "";
    }

    method SetJsonText(text: string)
      modifies this
      ensures jsonText == text && error == old(error) && isLoading == old(isLoading)
    {
      jsonText := text;
    }

    /** `processJson` on the result of parsing: `None` is a syntax error.
        Returns what is handed to the form builder; on success the text box
        is cleared, on failure the error is shown. */
    method ProcessJson(parsed: Option<JsVal>) returns (loaded: Option<Imported>)
      modifies this
      ensures !isLoading
      ensures parsed.None? ==> loaded.None? && error == Some(EngineError) && jsonText == old(jsonText)
      ensures parsed.Some? ==>
                match ProcessParsed(parsed.value)
                case Ok(d) => loaded == Some(d) && error.None? && jsonText == ""
                case Err(e) => loaded.None? && error == Some(e) && jsonText == old(jsonText)
    {
      isLoading := true;
      error := None;
      loaded := None;
      if parsed.None? {
        error := Some(EngineError);
      } else {
        var r := ProcessParsed(parsed.value);
        if r.Ok? {
          loaded := Some(r.value);
          jsonText := "";
        } else {
          error := Some(r.error);
        }
      }
      isLoading := false;
    }

    /** Import of the pasted text: blank text is refused before parsing.
        `parsed` is the result of parsing `jsonText`. */
    method HandleTextImport(parsed: Option<JsVal>) returns (loaded: Option<Imported>)
      modifies this
      ensures Trim(old(jsonText)) == "" ==>
                loaded.None? && error == Some(Message(ENTER_TEXT)) &&
                jsonText == old(jsonText) && isLoading == old(isLoading)
      ensures Trim(old(jsonText)) != "" && loaded.Some? ==>
                parsed.Some? && ProcessParsed(parsed.value) == Ok(loaded.value)
      ensures Trim(old(jsonText)) != "" ==> !isLoading
      ensures Trim(old(jsonText)) != "" && parsed.None? ==>
                loaded.None? && error == Some(EngineError) && jsonText == old(jsonText)
      ensures Trim(old(jsonText)) != "" && parsed.Some? ==>
                match ProcessParsed(parsed.value)
                case Ok(d) => loaded == Some(d) && error.None? && jsonText == ""
                case Err(e) => loaded.None? && error == Some(e) && jsonText == old(jsonText)
    {
      if Trim(jsonText) == "" {
        error := Some(Message(ENTER_TEXT));
        loaded := None;
        return;
      }
      loaded := ProcessJson(parsed);
    }

    /** Upload of a file of MIME type `fileType` (`None`: no file chosen).
        Anything but `application/json` is refused before reading; `text` is
        the file's content, `None` when reading fails, and `parsed` the
        result of parsing it. */
    method HandleFileUpload(fileType: Option<string>, text: Option<string>, parsed: Option<JsVal>)
      returns (loaded: Option<Imported>)
      modifies this
      ensures fileType.None? ==> loaded.None? && unchanged(this)
      ensures fileType.Some? && fileType.value != JSON_TYPE ==>
                loaded.None? && error == Some(Message(NOT_JSON_FILE)) &&
                jsonText == old(jsonText) && isLoading == old(isLoading)
      ensures fileType == Some(JSON_TYPE) && text.None? ==>
                loaded.None? && error == Some(Message(READ_FAILED)) && !isLoading &&
                jsonText == old(jsonText)
      ensures fileType == Some(JSON_TYPE) && text.Some? ==> !isLoading
      ensures fileType == Some(JSON_TYPE) && text.Some? && parsed.None? ==>
                loaded.None? && error == Some(EngineError) && jsonText == old(jsonText)
      ensures fileType == Some(JSON_TYPE) && text.Some? && parsed.Some? ==>
                match ProcessParsed(parsed.value)
                case Ok(d) => loaded == Some(d) && error.None? && jsonText == ""
                case Err(e) => loaded.None? && error == Some(e) && jsonText == old(jsonText)
      ensures loaded.Some? ==>
                fileType == Some(JSON_TYPE) && text.Some? && parsed.Some? &&
                ProcessParsed(parsed.value) == Ok(loaded.value)
    {
      loaded := None;
      if fileType.None? {
        return;
      }
      if fileType.value != JSON_TYPE {
        error := Some(Message(NOT_JSON_FILE));
        return;
      }
      if text.None? {
        error := Some(Message(READ_FAILED));
        isLoading := false;
        return;
      }
      loaded := ProcessJson(parsed);
    }
  }
}
