/**
 * The Home page: the prompt form, the generate request with its response
 * handling, and the output pane (code/preview tabs, copy, download, preview
 * refresh, full-screen preview).
 *
 * The page's `useState` fields are the fields of class Page. Each handler is
 * a method that updates them step by step, and its contract ties the new
 * state to a pure transition function on Snapshot, the value of all those
 * fields together. The lemmas about the transition functions state what the
 * page promises.
 *
 * The remote model call is an Outcome given to the method that continues
 * after the await: either the SDK returned a Response or it threw. The
 * clipboard and the file download are recorded as Effects, the toasts as
 * Notices, the outbound calls as Requests.
 */
module Home {
  import opened Wrappers
  import opened JsString
  import opened Extraction

  // ---------------------------------------------------------------------
  // Values

  /** The framework options of the select box; the request carries the value. */
  datatype Framework = HtmlCss | HtmlTailwind | HtmlBootstrap | HtmlCssJs | HtmlTailwindBootstrap
  {
    function Value(): string {
      match this
      case HtmlCss => "html-css"
      case HtmlTailwind => "html-tailwind"
      case HtmlBootstrap => "html-bootstrap"
      case HtmlCssJs => "html-css-js"
      case HtmlTailwindBootstrap => "html-tailwind-bootstrap"
    }
  }

  /** 1 is the Code tab, 2 the Preview tab. */
  type Tab = t: int | t == 1 || t == 2 witness 1

  /** A JavaScript value as the response-text fallback chain sees it. */
  datatype JsValue = Undefined | Str(s: string) | Object

  /** JavaScript truthiness: undefined and "" are falsy, other strings and objects truthy. */
  predicate Truthy(v: JsValue) {
    match v
    case Undefined => false
    case Str(s) => s != ""
    case Object => true
  }

  /**
   * What the SDK returned: `response.text`, `response.candidates[0].content`
   * (Undefined when any step of that path is missing) and JSON.stringify of
   * the whole response, an uninterpreted string.
   */
  datatype Response = Response(text: JsValue, firstCandidateContent: JsValue, serialized: string)

  /** How the awaited model call ended. */
  datatype Outcome = Returned(response: Response) | Threw

  /** One outbound generation call: the prompt and the framework value it embeds. */
  datatype Request = Request(prompt: string, framework: string)

  /** The toasts the page raises. */
  datatype Notice =
    | DescribeFirst | GenerationFailed
    | NothingToCopy | Copied | CopyFailed
    | NothingToDownload | Downloaded | DownloadFailed
  {
    /** `toast.success` rather than `toast.error`. */
    predicate IsSuccess() { this == Copied || this == Downloaded }

    function Message(): string {
      match this
      case DescribeFirst => "Please describe your component first"
      case GenerationFailed => "Something went wrong while generating code"
      case NothingToCopy => "No code to copy"
      case Copied => "Code copied to clipboard"
      case CopyFailed => "Failed to copy"
      case NothingToDownload => "No code to download"
      case Downloaded => "File downloaded"
      case DownloadFailed => "Failed to download"
    }
  }

  /** A side effect outside the page that took place. */
  datatype Effect = ClipboardWrite(text: string) | FileDownload(fileName: string, mimeType: string, content: string)

  const DownloadName := "GenUI-Code.html"
  const DownloadType := "text/html"

  /** All the page's state fields, and what has happened outside the page. */
  datatype Snapshot = Snapshot(
    outputScreen: bool,
    tab: Tab,
    prompt: string,
    framework: Framework,
    code: string,
    loading: bool,
    isNewTabOpen: bool,
    refreshKey: int,
    requests: seq<Request>,
    notices: seq<Notice>,
    effects: seq<Effect>)

  /** The state the page mounts with. */
  function Initial(): Snapshot {
    Snapshot(false, 1, "", HtmlCss, "", false, false, 0, [], [], [])
  }

  /** What every reachable state satisfies: the code is trimmed, and cleared while a call is pending. */
  ghost predicate Inv(s: Snapshot) {
    IsTrimmed(s.code) && (s.loading ==> !s.outputScreen && s.code == "")
  }

  // ---------------------------------------------------------------------
  // Generating code

  /** The text taken from the response: `text` if truthy, else the first candidate's content if truthy, else the serialized response. */
  function RawText(r: Response): (v: JsValue)
    ensures v == r.text || v == r.firstCandidateContent || v == Str(r.serialized)
    ensures !Truthy(v) ==> v == Str(r.serialized)
  {
    if Truthy(r.text) then r.text
    else if Truthy(r.firstCandidateContent) then r.firstCandidateContent
    else Str(r.serialized)
  }

  /** The index of the first truthy value of `vs`, or |vs| when there is none. */
  function FirstTruthy(vs: seq<JsValue>): (i: nat)
    ensures i <= |vs|
    ensures i < |vs| ==> Truthy(vs[i])
    ensures forall j :: 0 <= j < i ==> !Truthy(vs[j])
  {
    if vs == [] then 0
    else if Truthy(vs[0]) then 0
    else 1 + FirstTruthy(vs[1..])
  }

  /** The fallback chain is an ordered choice: the first truthy source wins, and the serialized response is the last resort. */
  lemma RawTextIsFirstTruthy(r: Response)
    ensures var sources := [r.text, r.firstCandidateContent];
            var i := FirstTruthy(sources);
            RawText(r) == if i < |sources| then sources[i] else Str(r.serialized)
  {
  }

  /**
   * The code a settled call yields, or None when the page reports a failure:
   * the call threw, or the raw text is not a string, on which `extractCode`
   * calls `.match`, which throws a TypeError inside the same try block.
   */
  function GeneratedCode(o: Outcome): (code: Option<string>)
    ensures code.Some? ==> IsTrimmed(code.value)
    ensures code.Some? <==> o.Returned? && RawText(o.response).Str?
  {
    match o
    case Threw => None
    case Returned(r) =>
      match RawText(r)
      case Str(text) => Some(ExtractCode(text))
      case _ => None
  }

  /** The synchronous start of a submit with a non-blank prompt: a call is issued and the output is cleared. */
  function Pending(s: Snapshot): Snapshot {
    s.(loading := true, outputScreen := false, code := "",
       requests := s.requests + [Request(s.prompt, s.framework.Value())])
  }

  /** The page after the awaited call settles (the try, catch and finally blocks). */
  function Settled(s: Snapshot, o: Outcome): Snapshot {
    match GeneratedCode(o)
    case Some(code) => s.(code := code, outputScreen := true, loading := false)
    case None => s.(notices := s.notices + [GenerationFailed], loading := false)
  }

  /** A submit with a blank prompt: only the validation notice. */
  function Rejected(s: Snapshot): Snapshot {
    s.(notices := s.notices + [DescribeFirst])
  }

  /**
   * `getResponse` from start to finish. The guard `!prompt.trim()` holds
   * exactly when the prompt is whitespace only (JsString.TrimEmptyIffBlank),
   * which is how the guards of this page are written here.
   */
  function Generated(s: Snapshot, o: Outcome): Snapshot {
    if AllWhitespace(s.prompt) then Rejected(s) else Settled(Pending(s), o)
  }

  /** A blank or whitespace-only prompt raises the notice and changes nothing else: no call, no state change. */
  lemma BlankPromptChangesNothing(s: Snapshot, o: Outcome)
    requires Trim(s.prompt) == ""
    ensures Generated(s, o) == s.(notices := s.notices + [DescribeFirst])
  {
    TrimEmptyIffBlank(s.prompt);
  }

  /** Settling a call touches only the code, the output flag, `loading` and the notices. */
  lemma SettledFrame(s: Snapshot, o: Outcome)
    ensures Settled(s, o).(code := s.code, outputScreen := s.outputScreen, loading := s.loading, notices := s.notices) == s
    ensures !Settled(s, o).loading
  {
  }

  /** A prompt with some non-whitespace character issues exactly one call with that prompt and framework. */
  lemma PromptIssuesOneCall(s: Snapshot, o: Outcome)
    requires Trim(s.prompt) != ""
    ensures Generated(s, o).requests == s.requests + [Request(s.prompt, s.framework.Value())]
    ensures !Generated(s, o).loading && Generated(s, o).tab == s.tab
  {
    TrimEmptyIffBlank(s.prompt);
    SettledFrame(Pending(s), o);
  }

  /** A successful call shows the extracted code; the tab stays as it was. */
  lemma SuccessShowsExtractedCode(s: Snapshot, r: Response, text: string)
    requires Trim(s.prompt) != "" && RawText(r) == Str(text)
    ensures var g := Generated(s, Returned(r));
            g.code == ExtractCode(text) && g.outputScreen && !g.loading && g.tab == s.tab
            && g.notices == s.notices && g.effects == s.effects
  {
    TrimEmptyIffBlank(s.prompt);
  }

  /** A failed call leaves the output hidden and the code cleared, and raises the failure notice. */
  lemma FailureClearsOutput(s: Snapshot, o: Outcome)
    requires Trim(s.prompt) != "" && GeneratedCode(o).None?
    ensures var g := Generated(s, o);
            g.code == "" && !g.outputScreen && !g.loading && g.tab == s.tab
            && g.notices == s.notices + [GenerationFailed]
  {
  }

  // ---------------------------------------------------------------------
  // The output pane

  /** `copyCode`: with nothing but whitespace in the code, a notice and no clipboard write. */
  function CopiedCode(s: Snapshot, clipboardAccepts: bool): Snapshot {
    if AllWhitespace(s.code) then s.(notices := s.notices + [NothingToCopy])
    else if clipboardAccepts then
      s.(effects := s.effects + [ClipboardWrite(s.code)], notices := s.notices + [Copied])
    else s.(notices := s.notices + [CopyFailed])
  }

  /** `downloadFile`: with nothing but whitespace in the code, a notice and no file. */
  function DownloadedFile(s: Snapshot, downloadWorks: bool): Snapshot {
    if AllWhitespace(s.code) then s.(notices := s.notices + [NothingToDownload])
    else if downloadWorks then
      s.(effects := s.effects + [FileDownload(DownloadName, DownloadType, s.code)], notices := s.notices + [Downloaded])
    else s.(notices := s.notices + [DownloadFailed])
  }

  /** Copy and download with blank code only raise their notice: no effect, no state change. */
  lemma BlankCodeHasNoEffect(s: Snapshot, ok: bool)
    requires Trim(s.code) == ""
    ensures CopiedCode(s, ok) == s.(notices := s.notices + [NothingToCopy])
    ensures DownloadedFile(s, ok) == s.(notices := s.notices + [NothingToDownload])
  {
    TrimEmptyIffBlank(s.code);
  }

  /**
   * Copy touches nothing but the notices and the effects. It writes the
   * current code to the clipboard exactly when the code is not blank and the
   * write succeeds, and raises one toast: the blank-code error, the success
   * toast, or the failure toast.
   */
  lemma CopyRecordsCode(s: Snapshot, ok: bool)
    ensures CopiedCode(s, ok).(notices := s.notices, effects := s.effects) == s
    ensures CopiedCode(s, ok).effects == if Trim(s.code) != "" && ok then s.effects + [ClipboardWrite(s.code)] else s.effects
    ensures CopiedCode(s, ok).notices == s.notices + [if Trim(s.code) == "" then NothingToCopy else if ok then Copied else CopyFailed]
  {
    var blank := Trim(s.code) == "";
    assert blank <==> AllWhitespace(s.code) by { TrimEmptyIffBlank(s.code); }
    if blank {
      assert CopiedCode(s, ok) == s.(notices := s.notices + [NothingToCopy]);
    } else if ok {
      assert CopiedCode(s, ok) == s.(effects := s.effects + [ClipboardWrite(s.code)], notices := s.notices + [Copied]);
    } else {
      assert CopiedCode(s, ok) == s.(notices := s.notices + [CopyFailed]);
    }
  }

  /**
   * Download touches nothing but the notices and the effects. It saves the
   * current code as "GenUI-Code.html" of type text/html exactly when the code
   * is not blank and the download succeeds, and raises one toast: the
   * blank-code error, the success toast, or the failure toast.
   */
  lemma DownloadRecordsFile(s: Snapshot, ok: bool)
    ensures DownloadedFile(s, ok).(notices := s.notices, effects := s.effects) == s
    ensures DownloadedFile(s, ok).effects == if Trim(s.code) != "" && ok then s.effects + [FileDownload(DownloadName, DownloadType, s.code)] else s.effects
    ensures DownloadedFile(s, ok).notices == s.notices + [if Trim(s.code) == "" then NothingToDownload else if ok then Downloaded else DownloadFailed]
  {
    var blank := Trim(s.code) == "";
    assert blank <==> AllWhitespace(s.code) by { TrimEmptyIffBlank(s.code); }
    if blank {
      assert DownloadedFile(s, ok) == s.(notices := s.notices + [NothingToDownload]);
    } else if ok {
      assert DownloadedFile(s, ok) == s.(effects := s.effects + [FileDownload(DownloadName, DownloadType, s.code)], notices := s.notices + [Downloaded]);
    } else {
      assert DownloadedFile(s, ok) == s.(notices := s.notices + [DownloadFailed]);
    }
  }

  /** Copy and download raise a success toast exactly when their effect took place. */
  lemma SuccessToastIffEffect(s: Snapshot, ok: bool)
    ensures CopiedCode(s, ok).notices[|s.notices|].IsSuccess() <==> |CopiedCode(s, ok).effects| > |s.effects|
    ensures DownloadedFile(s, ok).notices[|s.notices|].IsSuccess() <==> |DownloadedFile(s, ok).effects| > |s.effects|
  {
    CopyRecordsCode(s, ok);
    DownloadRecordsFile(s, ok);
  }

  /** Each toast has its own message, so recording the toast kind loses nothing of what the user sees. */
  lemma MessagesDistinct(a: Notice, b: Notice)
    requires a != b
    ensures a.Message() != b.Message()
  {
  }

  /** In a reachable state the code is trimmed, so "blank" just means empty. */
  lemma TrimmedCodeBlankIffEmpty(s: Snapshot)
    requires Inv(s)
    ensures Trim(s.code) == "" <==> s.code == ""
    ensures AllWhitespace(s.code) <==> s.code == ""
  {
  }

  /** The refresh button `count` times in a row. */
  function RefreshedTimes(s: Snapshot, count: nat): Snapshot {
    if count == 0 then s else RefreshedTimes(s, count - 1).(refreshKey := RefreshedTimes(s, count - 1).refreshKey + 1)
  }

  /** Every press of refresh raises the preview key, so each press remounts the preview; nothing else changes. */
  lemma {:induction false} RefreshRaisesKey(s: Snapshot, count: nat)
    ensures RefreshedTimes(s, count).refreshKey == s.refreshKey + count
    ensures RefreshedTimes(s, count).(refreshKey := s.refreshKey) == s
  {
    if count > 0 {
      RefreshRaisesKey(s, count - 1);
    }
  }

  /** Different numbers of presses never give the same key. */
  lemma RefreshKeysDistinct(s: Snapshot, i: nat, j: nat)
    requires i < j
    ensures RefreshedTimes(s, i).refreshKey < RefreshedTimes(s, j).refreshKey
  {
  }

  /** A submit keeps the invariant: whatever the call returns, the code shown is trimmed. */
  lemma GenerateKeepsInv(s: Snapshot, o: Outcome)
    requires Inv(s) && !s.loading
    ensures Inv(Generated(s, o))
    ensures IsTrimmed(Generated(s, o).code)
  {
  }

  // ---------------------------------------------------------------------
  // The page

  class Page {
    var outputScreen: bool
    var tab: Tab
    var prompt: string
    var framework: Framework
    var code: string
    var loading: bool
    var isNewTabOpen: bool
    var refreshKey: int
    var requests: seq<Request>
    var notices: seq<Notice>
    var effects: seq<Effect>

    function Snap(): Snapshot
      reads this
    {
      Snapshot(outputScreen, tab, prompt, framework, code, loading, isNewTabOpen, refreshKey, requests, notices, effects)
    }

    ghost predicate Valid()
      reads this
    {
      Inv(Snap())
    }

    constructor ()
      ensures Snap() == Initial() && Valid()
    {
      outputScreen, tab, prompt, framework := false, 1, "", HtmlCss;
      code, loading, isNewTabOpen, refreshKey := "", false, false, 0;
      requests, notices, effects := [], [], [];
    }

    /** The textarea's change handler. */
    method SetPrompt(text: string)
      requires Valid()
      modifies this
      ensures Snap() == old(Snap()).(prompt := text) && Valid()
    {
      prompt := text;
    }

    /** The select box's change handler. */
    method SelectFramework(f: Framework)
      requires Valid()
      modifies this
      ensures Snap() == old(Snap()).(framework := f) && Valid()
    {
      framework := f;
    }

    /** `getResponse` up to the await. The button is disabled while loading. */
    method Submit() returns (sent: bool)
      requires Valid() && !loading
      modifies this
      ensures sent <==> !AllWhitespace(old(prompt))
      ensures Snap() == if sent then Pending(old(Snap())) else Rejected(old(Snap()))
      ensures Valid() && loading == sent
    {
      if AllWhitespace(prompt) {
        notices := notices + [DescribeFirst];
        return false;
      }
      loading := true;
      outputScreen := false;
      code := "";
      requests := requests + [Request(prompt, framework.Value())];
      sent := true;
    }

    /** `getResponse` after the await: the try, catch and finally blocks. */
    method Settle(outcome: Outcome)
      requires Valid() && loading
      modifies this
      ensures Snap() == Settled(old(Snap()), outcome) && Valid()
    {
      match outcome {
        case Threw =>
          notices := notices + [GenerationFailed];
        case Returned(response) =>
          var rawText := RawText(response);
          if rawText.Str? {
            var extracted := ExtractCode(rawText.s);
            code := extracted;
            outputScreen := true;
          } else {
            // `.match` on a non-string throws; the catch block reports it
            notices := notices + [GenerationFailed];
          }
      }
      loading := false;
    }

    /** `getResponse` from start to finish, the model call ending with `outcome`. */
    method GetResponse(outcome: Outcome)
      requires Valid() && !loading
      modifies this
      ensures Snap() == Generated(old(Snap()), outcome) && Valid()
    {
      var sent := Submit();
      if sent {
        Settle(outcome);
      }
    }

    /** `copyCode`; `clipboardAccepts` is whether the clipboard write succeeds. */
    method CopyCode(clipboardAccepts: bool)
      requires Valid()
      modifies this
      ensures Snap() == CopiedCode(old(Snap()), clipboardAccepts) && Valid()
    {
      if AllWhitespace(code) {
        notices := notices + [NothingToCopy];
        return;
      }
      if clipboardAccepts {
        effects := effects + [ClipboardWrite(code)];
        notices := notices + [Copied];
      } else {
        notices := notices + [CopyFailed];
      }
    }

    /** `downloadFile`; `downloadWorks` is whether building the blob and clicking the link succeed. */
    method DownloadFile(downloadWorks: bool)
      requires Valid()
      modifies this
      ensures Snap() == DownloadedFile(old(Snap()), downloadWorks) && Valid()
    {
      if AllWhitespace(code) {
        notices := notices + [NothingToDownload];
        return;
      }
      var fileName := DownloadName;
      if downloadWorks {
        effects := effects + [FileDownload(fileName, DownloadType, code)];
        notices := notices + [Downloaded];
      } else {
        notices := notices + [DownloadFailed];
      }
    }

    /** The Code tab button. */
    method ShowCode()
      requires Valid()
      modifies this
      ensures Snap() == old(Snap()).(tab := 1) && Valid()
    {
      tab := 1;
    }

    /** The Preview tab button. */
    method ShowPreview()
      requires Valid()
      modifies this
      ensures Snap() == old(Snap()).(tab := 2) && Valid()
    {
      tab := 2;
    }

    /** The open-in-full-screen button. */
    method OpenFullscreen()
      requires Valid()
      modifies this
      ensures Snap() == old(Snap()).(isNewTabOpen := true) && Valid()
    {
      isNewTabOpen := true;
    }

    /** The close button of the full-screen preview. */
    method CloseFullscreen()
      requires Valid()
      modifies this
      ensures Snap() == old(Snap()).(isNewTabOpen := false) && Valid()
    {
      isNewTabOpen := false;
    }

    /** The refresh button: `setRefreshKey(prev => prev + 1)`. */
    method RefreshPreview()
      requires Valid()
      modifies this
      ensures Snap() == RefreshedTimes(old(Snap()), 1) && Valid()
      ensures refreshKey > old(refreshKey)
    {
      refreshKey := refreshKey + 1;
    }
  }
}
