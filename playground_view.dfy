/**
 * The playground's preview controller (src/views/playground/PlaygroundView.ts):
 * the re-entrancy guard of `compileAndRun`, the error panel, and the document
 * `createIframeHTML` wraps around the compiled bundle. The compiler and the
 * iframe are abstract: the view records what it asks of them.
 */
module Playground {
  import opened Strings
  import opened Wrappers
  import BrowserCompiler

  // ---------------------------------------------------------------------
  // The preview document (`createIframeHTML`)
  // ---------------------------------------------------------------------

  /** The CDN build the preview's import map pins `typecomposer` to. */
  const TypecomposerUrl := "https://esm.sh/typecomposer@0.1.53"

  /** The import map entry for `typecomposer`. */
  const TypecomposerImport := "      \"typecomposer\": \"" + TypecomposerUrl + "\"\n"

  const Doctype := "<!DOCTYPE html>\n"

  /** The document up to the import map entry. */
  const DocumentHead := Doctype + HeadLines

  const HeadLines :=
    "<html lang=\"en\">\n"
    + "<head>\n"
    + "  <meta charset=\"UTF-8\" />\n"
    + "  <meta name=\"viewport\" content=\"width=device-width, initial-scale=1.0\" />\n"
    + "  <title>TypeComposer Preview</title>\n"
    + "  <script type=\"importmap\">\n"
    + "  {\n"
    + "    \"imports\": {\n"

  /** The rest of the head, the error traps, and the opening of the bundle's script. */
  const DocumentBody :=
    "    }\n"
    + "  }\n"
    + "  </script>\n"
    + "  <style>\n"
    + "    * {\n"
    + "      margin: 0;\n"
    + "      padding: 0;\n"
    + "      box-sizing: border-box;\n"
    + "    }\n"
    + "    body {\n"
    + "      font-family: system-ui, -apple-system, sans-serif;\n"
    + "    }\n"
    + "  </style>\n"
    + "</head>\n"
    + "<body>\n"
    + "  <script type=\"module\">\n"
    + "    // Error handling\n"
    + "    window.addEventListener(\"error\", (event) => {\n"
    + "      console.error(\"Runtime Error:\", event.error);\n"
    + "      const errorDiv = document.createElement(\"div\");\n"
    + "      errorDiv.style.cssText = \"color: #dc2626; padding: 20px; font-family: monospace; white-space: pre-wrap; background: #fef2f2; border: 1px solid #fecaca; border-radius: 4px; margin: 20px;\";\n"
    + "      errorDiv.textContent = \"Error: \" + (event.error?.stack || event.message);\n"
    + "      if (document.body.children.length === 0) {\n"
    + "        document.body.appendChild(errorDiv);\n"
    + "      }\n"
    + "    });\n"
    + "    \n"
    + "    window.addEventListener(\"unhandledrejection\", (event) => {\n"
    + "      console.error(\"Unhandled Promise Rejection:\", event.reason);\n"
    + "    });\n"
    + "  </script>\n"
    + "  <script type=\"module\">\n"

  /** Everything before the compiled code. */
  const Prefix := DocumentHead + TypecomposerImport + DocumentBody

  /** Everything after the compiled code. */
  const Suffix := ClosingLines + HtmlClose

  const ClosingLines := "\n" + "  </script>\n" + "</body>\n"
  const HtmlClose := "</html>"

  /** `createIframeHTML`: the compiled code between the fixed prefix and suffix. */
  function CreateIframeHTML(compiledCode: string): string {
    Prefix + compiledCode + Suffix
  }

  /** `html` starts with `p` and ends with `s`, and these do not overlap. */
  predicate Wraps(html: string, p: string, s: string) {
    |html| >= |p| + |s| && html[..|p|] == p && html[|html| - |s|..] == s
  }

  /** The code inside a preview document, if the text has that shape. */
  function EmbeddedCode(html: string): (r: Option<string>)
    ensures r.Some? ==> CreateIframeHTML(r.value) == html
  {
    Between(html, Prefix, Suffix)
  }

  /** The text between a leading `p` and a trailing `s`, when `html` has both. */
  function Between(html: string, p: string, s: string): (r: Option<string>)
    ensures r.Some? <==> Wraps(html, p, s)
    ensures r.Some? ==> p + r.value + s == html
  {
    if Wraps(html, p, s) then
      assert html == html[..|p|] + html[|p|..|html| - |s|] + html[|html| - |s|..];
      Some(html[|p|..|html| - |s|])
    else None
  }

  /** Wrapping `c` in `p` and `s` and taking the text between gives `c` back. */
  lemma BetweenWrapped(p: string, c: string, s: string)
    ensures Between(p + c + s, p, s) == Some(c)
  {
    var html := p + c + s;
    assert Wraps(html, p, s);
    assert html[|p|..|html| - |s|] == c;
  }

  /** A preview document begins with the doctype line and ends with the closing `html` tag. */
  lemma DocumentShape(compiledCode: string)
    ensures StartsWith(CreateIframeHTML(compiledCode), Doctype)
    ensures EndsWith(CreateIframeHTML(compiledCode), HtmlClose)
  {
    DocumentEnds(Doctype, HeadLines, TypecomposerImport, DocumentBody, compiledCode, ClosingLines, HtmlClose);
  }

  lemma DocumentEnds(q: string, r: string, t: string, d: string, c: string, s: string, e: string)
    ensures StartsWith((((q + r) + t) + d) + c + (s + e), q)
    ensures EndsWith((((q + r) + t) + d) + c + (s + e), e)
  {
    var html := (((q + r) + t) + d) + c + (s + e);
    assert html == q + (r + t + d + c + s) + e;
  }

  /** `t` occurs in `s` at offset `k`. */
  predicate PlacedAt(s: string, k: nat, t: string) {
    k + |t| <= |s| && s[k..k + |t|] == t
  }

  /** The import map of every preview document maps `typecomposer` to the pinned CDN URL. */
  lemma ImportMapPinned(compiledCode: string)
    ensures PlacedAt(CreateIframeHTML(compiledCode), |DocumentHead|, TypecomposerImport)
  {
    MiddleSlice(DocumentHead, TypecomposerImport, DocumentBody, compiledCode, Suffix);
  }

  lemma MiddleSlice(a: string, t: string, d: string, c: string, s: string)
    ensures PlacedAt(((a + t) + d) + c + s, |a|, t)
  {
    assert ((a + t) + d) + c + s == a + t + (d + c + s);
  }

  /** The compiled code is recovered by stripping the fixed prefix and suffix. */
  lemma EmbeddedCodeRoundTrip(compiledCode: string)
    ensures EmbeddedCode(CreateIframeHTML(compiledCode)) == Some(compiledCode)
  {
    BetweenWrapped(Prefix, compiledCode, Suffix);
  }

  /** Different bundles give different documents. */
  lemma CreateIframeHTMLInjective(a: string, b: string)
    requires CreateIframeHTML(a) == CreateIframeHTML(b)
    ensures a == b
  {
    EmbeddedCodeRoundTrip(a);
    EmbeddedCodeRoundTrip(b);
  }

  // ---------------------------------------------------------------------
  // The controller (`compileAndRun`, `showError`, `hideError`, `updateFiles`)
  // ---------------------------------------------------------------------

  /** What the `try` of `compileAndRun` ends with: the result of `compileFiles`, or an exception it caught. */
  datatype Attempt = Returned(result: BrowserCompiler.CompileResult) | Raised(message: string)

  /** The error panel's class names: the constructor's, while shown, and while hidden. */
  const InitialClass := "hidden bg-red-50 border border-red-200 text-red-800 px-4 py-3 rounded relative"
  const ShownClass := "bg-red-50 border border-red-200 text-red-800 px-4 py-3 rounded relative mb-2"
  const HiddenClass := "hidden"

  /** The panel text for a failed compilation and for an exception. */
  function CompileErrorText(error: string): string { "Compilation Error:\n" + error }
  function ExceptionText(message: string): string { "Error: " + message }

  /**
   * The view's state. `requests` lists the file sets it has passed to the
   * compiler, `documents` the HTML documents it has injected into the iframe.
   */
  class PlaygroundView {
    var isCompiling: bool
    var errorClass: string
    var errorText: string
    var requests: seq<BrowserCompiler.FileStore>
    var documents: seq<string>

    constructor ()
      ensures !isCompiling && errorClass == InitialClass && errorText == ""
      ensures requests == [] && documents == []
    {
      isCompiling := false;
      errorClass := InitialClass;
      errorText := "";
      requests := [];
      documents := [];
    }

    /** `showError`: shows the panel with the message. */
    method ShowError(message: string)
      modifies this`errorClass, this`errorText
      ensures errorText == message && errorClass == ShownClass
    {
      errorText := message;
      errorClass := ShownClass;
    }

    /** `hideError`: hides the panel and empties it. */
    method HideError()
      modifies this`errorClass, this`errorText
      ensures errorClass == HiddenClass && errorText == ""
    {
      errorClass := HiddenClass;
      errorText := "";
    }

    /**
     * `compileAndRun` up to its `await`: a no-op while a compilation is in flight;
     * otherwise sets the flag, clears the panel and calls the compiler.
     */
    method StartCompile(files: BrowserCompiler.FileStore) returns (started: bool)
      modifies this
      ensures started == !old(isCompiling)
      ensures !started ==> isCompiling && errorClass == old(errorClass) && errorText == old(errorText)
                           && requests == old(requests) && documents == old(documents)
      ensures started ==> isCompiling && errorClass == HiddenClass && errorText == ""
                          && requests == old(requests) + [files] && documents == old(documents)
    {
      if isCompiling {
        return false;
      }
      isCompiling := true;
      HideError();
      requests := requests + [files];
      return true;
    }

    /**
     * `compileAndRun` after its `await`: reports a failure or an exception in the
     * panel, or injects the preview document; the flag is cleared on every path.
     */
    method FinishCompile(attempt: Attempt)
      requires isCompiling
      modifies this
      ensures !isCompiling && requests == old(requests)
      ensures attempt.Returned? && attempt.result.Failed? ==>
                errorText == CompileErrorText(attempt.result.error) && errorClass == ShownClass
                && documents == old(documents)
      ensures attempt.Returned? && attempt.result.Compiled? ==>
                errorText == old(errorText) && errorClass == old(errorClass)
                && documents == old(documents) + [CreateIframeHTML(attempt.result.code)]
      ensures attempt.Raised? ==>
                errorText == ExceptionText(attempt.message) && errorClass == ShownClass
                && documents == old(documents)
    {
      match attempt {
        case Raised(message) =>
          ShowError(ExceptionText(message));
        case Returned(result) =>
          if !result.Compiled? {
            ShowError(CompileErrorText(result.error));
            isCompiling := false;
            return;
          }
          var html := CreateIframeHTML(result.code);
          documents := documents + [html];
      }
      isCompiling := false;
    }

    /** `compileAndRun`, run to completion against the abstract compiler `compile`. */
    method CompileAndRun(files: BrowserCompiler.FileStore, compile: BrowserCompiler.FileStore -> Attempt)
      modifies this
      ensures old(isCompiling) ==> isCompiling && errorClass == old(errorClass) && errorText == old(errorText)
                                   && requests == old(requests) && documents == old(documents)
      ensures !old(isCompiling) ==> !isCompiling && requests == old(requests) + [files]
      ensures !old(isCompiling) ==> match compile(files)
        case Returned(Compiled(code)) =>
          errorClass == HiddenClass && errorText == "" && documents == old(documents) + [CreateIframeHTML(code)]
        case Returned(Failed(error)) =>
          errorClass == ShownClass && errorText == CompileErrorText(error) && documents == old(documents)
        case Raised(message) =>
          errorClass == ShownClass && errorText == ExceptionText(message) && documents == old(documents)
    {
      var started := StartCompile(files);
      if started {
        FinishCompile(compile(files));
      }
    }

    /** `updateFiles`: exactly `compileAndRun` on the new files. */
    method UpdateFiles(newFiles: BrowserCompiler.FileStore, compile: BrowserCompiler.FileStore -> Attempt)
      modifies this
      ensures old(isCompiling) ==> isCompiling && errorClass == old(errorClass) && errorText == old(errorText)
                                   && requests == old(requests) && documents == old(documents)
      ensures !old(isCompiling) ==> !isCompiling && requests == old(requests) + [newFiles]
      ensures !old(isCompiling) ==> match compile(newFiles)
        case Returned(Compiled(code)) =>
          errorClass == HiddenClass && errorText == "" && documents == old(documents) + [CreateIframeHTML(code)]
        case Returned(Failed(error)) =>
          errorClass == ShownClass && errorText == CompileErrorText(error) && documents == old(documents)
        case Raised(message) =>
          errorClass == ShownClass && errorText == ExceptionText(message) && documents == old(documents)
    {
      CompileAndRun(newFiles, compile);
    }
  }

  /**
   * Two requests overlapping one compilation: the second is refused, so the
   * compiler is asked exactly once, and only the first request's result is shown.
   */
  method OverlappingRequests(view: PlaygroundView, first: BrowserCompiler.FileStore,
                             second: BrowserCompiler.FileStore, result: Attempt)
    requires !view.isCompiling
    modifies view
    ensures view.requests == old(view.requests) + [first]
    ensures !view.isCompiling
  {
    var started := view.StartCompile(first);
    var refused := view.StartCompile(second);
    assert started && !refused;
    view.FinishCompile(result);
  }
}
