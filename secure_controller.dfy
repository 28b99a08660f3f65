/**
 * `SecureController`: each action selects what to render or send from a
 * closed, fixed set, so a request parameter never becomes a template, partial
 * or file path. Every action is a function of the request parameters (and,
 * for downloads, of what the database lookup and the session supply).
 */
module SecureController {
  import opened RubyValues
  import opened Responses

  /** The associations of the `ALLOWED_TEMPLATES` literal, in written order. */
  const AllowedTemplateEntries: seq<(string, string)> := [
    ("home", "pages/home"),
    ("about", "pages/about"),
    ("contact", "pages/contact"),
    ("products", "pages/products")
  ]

  /** `ALLOWED_TEMPLATES`, the frozen Hash from request key to template. */
  const AllowedTemplates: map<string, string> := HashLiteral(AllowedTemplateEntries)

  /** The templates `show_template_secure` is allowed to render. */
  const TemplateRefs: set<string> := {"pages/home", "pages/about", "pages/contact", "pages/products"}

  /** The partials `render_partial_secure` is allowed to render. */
  const PartialRefs: set<string> := {"users/info", "users/stats", "users/settings"}

  const InvalidTemplateBody: string := "Invalid template"
  const InvalidTemplateWarning: string := "Invalid template access attempt: "

  /** The literal denotes the intended four-entry table: four distinct keys, each with its template. */
  lemma AllowedTemplatesTable()
    ensures AllowedTemplates == map[
      "home" := "pages/home", "about" := "pages/about",
      "contact" := "pages/contact", "products" := "pages/products"]
  {
    var e, t := AllowedTemplateEntries, map[
      "home" := "pages/home", "about" := "pages/about",
      "contact" := "pages/contact", "products" := "pages/products"];
    HashLiteralKeys(e);
    assert LiteralKeys(e) == t.Keys by {
      assert e == [e[0], e[1], e[2], e[3]];
    }
    forall i | 0 <= i < |e| ensures AllowedTemplates[e[i].0] == t[e[i].0] == e[i].1 {
      // the four keys have four different lengths, so none is repeated
      assert LastOccurrence(e, i) by {
        assert forall j :: i < j < |e| ==> |e[j].0| != |e[i].0|;
      }
      HashLiteralLastWins(e, i);
    }
    assert AllowedTemplates == t by {
      forall k | k in t ensures AllowedTemplates[k] == t[k] {
        assert k == e[0].0 || k == e[1].0 || k == e[2].0 || k == e[3].0;
      }
    }
  }

  /** The templates the table can yield are exactly `TemplateRefs`. */
  lemma AllowedTemplateValues()
    ensures AllowedTemplates.Values == TemplateRefs
  {
    var e, t := AllowedTemplateEntries, AllowedTemplates;
    forall v | v in t.Values ensures v in TemplateRefs {
      var k :| k in t && t[k] == v;
      // whatever the table holds was written in the literal
      HashLiteralValueWritten(e, k);
    }
    AllowedTemplatesTable();
    forall v | v in TemplateRefs ensures v in t.Values {
      assert v == t["home"] || v == t["about"] || v == t["contact"] || v == t["products"];
    }
  }

  /**
   * `show_template_secure`: renders the table's template for a key of
   * `ALLOWED_TEMPLATES`, and for anything else (no parameter included) logs
   * one warning naming the key and answers 400 with a fixed body.
   */
  function ShowTemplateSecure(params: Params): (r: Response)
    ensures r.outcome.Render? <==> Param(params, "template").Str? && params["template"] in AllowedTemplates
    ensures r.outcome.Render? ==>
      && r.outcome.value == Str(AllowedTemplates[params["template"]])
      && r.outcome.value.s in TemplateRefs
      && r.warnings == []
    ensures !r.outcome.Render? ==>
      && r.outcome == Plain(BadRequest, InvalidTemplateBody)
      && r.warnings == [InvalidTemplateWarning + Interpolate(Param(params, "template"))]
  {
    AllowedTemplatesTable();
    var templateKey := Param(params, "template");
    if HasKey(AllowedTemplates, templateKey) then
      Response(Render(Fetch(AllowedTemplates, templateKey)), [])
    else
      Response(Plain(BadRequest, InvalidTemplateBody),
               [InvalidTemplateWarning + Interpolate(templateKey)])
  }

  /**
   * `render_partial_secure`: three literal names select three partials;
   * every other value, `nil` included, answers 404.
   */
  function RenderPartialSecure(params: Params): (r: Response)
    ensures r.warnings == []
    ensures r.outcome.RenderPartial? || r.outcome == Head(NotFound)
    ensures r.outcome.RenderPartial? ==> r.outcome.value.Str? && r.outcome.value.s in PartialRefs
    ensures Param(params, "partial") == Str("user_info") <==> r.outcome == RenderPartial(Str("users/info"))
    ensures Param(params, "partial") == Str("user_stats") <==> r.outcome == RenderPartial(Str("users/stats"))
    ensures Param(params, "partial") == Str("user_settings") <==> r.outcome == RenderPartial(Str("users/settings"))
  {
    var partialName := Param(params, "partial");
    var outcome :=
      match partialName
      case Str("user_info") => RenderPartial(Str("users/info"))
      case Str("user_stats") => RenderPartial(Str("users/stats"))
      case Str("user_settings") => RenderPartial(Str("users/settings"))
      case _ => Head(NotFound);
    Response(outcome, [])
  }

  /** `show_view_secure`: always renders the `show` action's own view. */
  function ShowViewSecure(params: Params): (r: Response)
  {
    Response(Render(Sym("show")), [])
  }

  /**
   * `authorized_to_download?` as written: a user is signed in and
   * `document.user_id == current_user.id` under Ruby's `==`, where
   * `nil == nil` holds.
   */
  predicate AuthorizedToDownloadAsWritten(document: Document, currentUser: Option<User>)
  {
    currentUser.Some? && document.userId == currentUser.value.id
  }

  /**
   * `authorized_to_download?` as intended: a user is signed in, has an id,
   * and that id is the document's `user_id`.
   */
  predicate AuthorizedToDownload(document: Document, currentUser: Option<User>)
  {
    currentUser.Some? && currentUser.value.id.Some? && document.userId == currentUser.value.id
  }

  /** `download_secure` exactly as written, with the `nil == nil` comparison. */
  function DownloadSecureAsWritten(params: Params, findBy: Value -> Option<Document>, currentUser: Option<User>): Response
  {
    var document := findBy(Param(params, "id"));
    if document.Some? && AuthorizedToDownloadAsWritten(document.value, currentUser) then
      Response(SendFile(document.value.filePath, document.value.contentType, "attachment", document.value.filename), [])
    else
      Response(Head(Forbidden), [])
  }

  /**
   * `download_secure`: looks the document up by `params[:id]` and sends the
   * stored file, with the stored type and name, only to the signed-in owner;
   * a missing record and a foreign one both answer 403.
   * `findBy` stands for `Document.find_by(id: ...)`.
   */
  function DownloadSecure(params: Params, findBy: Value -> Option<Document>, currentUser: Option<User>): (r: Response)
    ensures r.warnings == []
    ensures r.outcome.SendFile? || r.outcome == Head(Forbidden)
    ensures r.outcome.SendFile? <==>
      exists doc, uid :: findBy(Param(params, "id")) == Some(doc) && currentUser == Some(User(Some(uid))) && doc.userId == Some(uid)
    ensures r.outcome.SendFile? ==>
      var doc := findBy(Param(params, "id")).value;
      r.outcome == SendFile(doc.filePath, doc.contentType, "attachment", doc.filename)
  {
    var fileId := Param(params, "id");
    var document := findBy(fileId);
    if document.Some? && AuthorizedToDownload(document.value, currentUser) then
      var uid := document.value.userId.value;
      assert findBy(Param(params, "id")) == Some(document.value) && currentUser == Some(User(Some(uid)));
      Response(SendFile(document.value.filePath, document.value.contentType, "attachment", document.value.filename), [])
    else
      Response(Head(Forbidden), [])
  }
}
