/**
 The two webhook handlers of the chat-command service, after the web framework: the
 request form is a dictionary, `abort(status)` and an unhandled exception are an
 `Abort` response, and `jsonify(x)` is a `Json` response.
 The configured shared secret (read from the environment at start-up) is a parameter.
 */
module Handlers {
  import opened Wrappers
  import opened Strings

  /** The fields of a form-encoded POST. */
  type Form = map<string, string>

  /** `request.form[key]` on a missing key: the framework answers 400. */
  const BadRequest := 400
  /** `abort(406)` */
  const NotAcceptable := 406
  /** An unhandled exception inside a handler. */
  const InternalServerError := 500

  datatype Body = Text(text: string) | Null

  datatype Response = Json(body: Body) | Abort(status: int)

  /** The callback identifiers `add` accepts. */
  const KnownCallbacks: set<string> := {"agency_select", "route_select", "alias_select"}

  /** Whether a secret is configured: an unset and an empty variable are both falsy. */
  predicate Configured(verification: Option<string>)
  {
    verification.Some? && verification.value != ""
  }

  /** `validate_token`: with a secret configured, only that exact token passes. */
  function ValidateToken(verification: Option<string>, token: string): Outcome<int>
  {
    if Configured(verification) && token != verification.value then Fail(NotAcceptable) else Pass
  }

  /** `args[0]` where `args = text.split(' ')`; the split is never empty. */
  function Subcommand(text: string): string
  {
    Split(text, ' ')[0]
  }

  /** `root`, with the form read from the request (see `RootAsWritten`). */
  function Root(verification: Option<string>, form: Form): Response
  {
    if "token" !in form then Abort(BadRequest)
    else match ValidateToken(verification, form["token"])
      case Fail(status) => Abort(status)
      case Pass =>
        var text := if "text" in form then form["text"] else "";
        var subcmd := Subcommand(text);
        if subcmd == "add" then Add(form)
        else Json(Text("Unknown command '" + subcmd + "'."))
  }

  /** `add`: branch on the interactive callback's identifier. */
  function Add(form: Form): Response
  {
    var callbackId := Get(form, "callback_id");
    if callbackId.None? || callbackId.value == "" then
      if "text" in form then Json(Text("echoing: " + form["text"])) else Abort(BadRequest)
    else if callbackId.value in KnownCallbacks then Json(Null)
    else Abort(NotAcceptable)
  }

  /**
   `root` as written: it reads the form through the name `response`, which is not bound
   in `root`, so every request that passes the token check raises NameError.
   */
  function RootAsWritten(verification: Option<string>, form: Form): Response
  {
    if "token" !in form then Abort(BadRequest)
    else match ValidateToken(verification, form["token"])
      case Fail(status) => Abort(status)
      case Pass => Abort(InternalServerError)
  }

  // ---------------------------------------------------------------------------
  // The shared-secret gate
  // ---------------------------------------------------------------------------

  /**
   A token is refused, with 406, exactly when a secret is configured and the token
   differs from it; with no secret configured every token passes.
   */
  lemma TokenGate(verification: Option<string>, token: string)
    ensures ValidateToken(verification, token).Fail? <==> Configured(verification) && token != verification.value
    ensures ValidateToken(verification, token).Fail? ==> ValidateToken(verification, token).error == NotAcceptable
    ensures !Configured(verification) ==> ValidateToken(verification, token) == Pass
    ensures Configured(verification) ==> (ValidateToken(verification, token) == Pass <==> token == verification.value)
  {
  }

  // ---------------------------------------------------------------------------
  // Command routing
  // ---------------------------------------------------------------------------

  /**
   The subcommand is the text up to its first space (all of it when there is none),
   and it is "add" exactly when the text is "add" or begins with "add ".
   */
  lemma SubcommandOfText(text: string)
    ensures Subcommand(text) <= text && ' ' !in Subcommand(text)
    ensures |Subcommand(text)| == |text| || text[|Subcommand(text)|] == ' '
    ensures Subcommand(text) == "add" <==> text == "add" || "add " <= text
  {
    FirstField(text, ' ');
    var h := Subcommand(text);
    if "add " <= text {
      PrefixBeforeSpace(text, h, "add");
    } else if text == "add" {
      assert h == text;
    }
  }

  /** Two space-free prefixes of `s` that each end at a space are the same prefix. */
  lemma PrefixBeforeSpace(s: string, h: string, w: string)
    requires h <= s && ' ' !in h && (|h| == |s| || s[|h|] == ' ')
    requires ' ' !in w && w + " " <= s
    ensures h == w
  {
    if |h| < |w| {
      assert false;
    } else if |h| > |w| {
      SpaceAfterWord(s, h, w);
      assert false;
    }
  }

  lemma SpaceAfterWord(s: string, h: string, w: string)
    requires h <= s && w + " " <= s && |h| > |w|
    ensures ' ' in h
  {
    assert h[|w|] == s[|w|] == (w + " ")[|w|];
  }

  /** A request whose token is missing or refused never reaches a subcommand. */
  lemma RootGate(verification: Option<string>, form: Form)
    ensures "token" !in form ==> Root(verification, form) == Abort(BadRequest)
    ensures "token" in form && ValidateToken(verification, form["token"]).Fail? ==>
              Root(verification, form) == Abort(NotAcceptable)
  {
  }

  /**
   Past the gate, `root` hands the request to `add` exactly when the text is "add" or
   begins with "add "; any other text, including an empty or missing one, gets the
   unknown-command reply naming the text up to its first space.
   */
  lemma RootDispatch(verification: Option<string>, form: Form)
    requires "token" in form && ValidateToken(verification, form["token"]) == Pass
    ensures var text := if "text" in form then form["text"] else "";
      (text == "add" || "add " <= text) ==> Root(verification, form) == Add(form)
    ensures var text := if "text" in form then form["text"] else "";
      !(text == "add" || "add " <= text) ==>
        Root(verification, form) == Json(Text("Unknown command '" + Subcommand(text) + "'."))
    ensures ("text" !in form || form["text"] == "") ==>
      Root(verification, form) == Json(Text("Unknown command ''."))
  {
    var text := if "text" in form then form["text"] else "";
    SubcommandOfText(text);
    if text == "" {
      assert Subcommand(text) == "";
      assert "Unknown command '" + "" + "'." == "Unknown command ''.";
    }
  }

  // ---------------------------------------------------------------------------
  // Callback routing
  // ---------------------------------------------------------------------------

  /**
   `add` echoes the text when there is no callback identifier, answers `null` for the
   three known identifiers, and refuses every other identifier with 406.
   */
  lemma AddCallbacks(form: Form)
    ensures ("callback_id" !in form || form["callback_id"] == "") && "text" in form ==>
              Add(form) == Json(Text("echoing: " + form["text"]))
    ensures "callback_id" in form && form["callback_id"] in KnownCallbacks ==> Add(form) == Json(Null)
    ensures Add(form) == Abort(NotAcceptable) <==>
              "callback_id" in form && form["callback_id"] != "" && form["callback_id"] !in KnownCallbacks
    ensures Add(form).Abort? ==> Add(form).status in {BadRequest, NotAcceptable}
  {
  }

  /** An accepted `add ...` command without a callback identifier echoes its whole text. */
  lemma AddCommandEchoes(verification: Option<string>, form: Form)
    requires "token" in form && ValidateToken(verification, form["token"]) == Pass
    requires "text" in form && (form["text"] == "add" || "add " <= form["text"])
    requires "callback_id" !in form
    ensures Root(verification, form) == Json(Text("echoing: " + form["text"]))
  {
    RootDispatch(verification, form);
  }

  // ---------------------------------------------------------------------------
  // The handler as written
  // ---------------------------------------------------------------------------

  /** As written, no request reaches `add` or the unknown-command reply. */
  lemma RootAsWrittenNeverDispatches(verification: Option<string>, form: Form)
    ensures RootAsWritten(verification, form).Abort?
    ensures "token" in form && ValidateToken(verification, form["token"]) == Pass ==>
              RootAsWritten(verification, form) == Abort(InternalServerError)
  {
  }

  /** A concrete request on which the handler as written and as intended differ. */
  lemma RootAsWrittenDiffers()
    ensures var form := map["token" := "s3cret", "text" := "add home"];
      && Root(Some("s3cret"), form) == Json(Text("echoing: add home"))
      && RootAsWritten(Some("s3cret"), form) == Abort(InternalServerError)
  {
    var form := map["token" := "s3cret", "text" := "add home"];
    assert "add " <= form["text"];
    AddCommandEchoes(Some("s3cret"), form);
    assert "echoing: " + form["text"] == "echoing: add home";
  }
}
