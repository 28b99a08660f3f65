/**
 * What the secure actions guarantee for every request: only vetted templates
 * and partials are rendered, keys match exactly, rejections look the same to
 * the client whatever was asked for, and files go only to their owners.
 */
module SecureProperties {
  import opened RubyValues
  import opened Responses
  import opened SecureController

  /** A lower-case ASCII letter or an underscore: the only characters the allowed names use. */
  predicate NameChar(c: char)
  {
    'a' <= c <= 'z' || c == '_'
  }

  /** A non-empty string of lower-case letters and underscores. */
  ghost predicate PlainName(s: string)
  {
    |s| > 0 && forall i :: 0 <= i < |s| ==> NameChar(s[i])
  }

  /** `render_partial_secure`'s `case` written as the table it amounts to. */
  const PartialTable: map<string, string> := map[
    "user_info" := "users/info",
    "user_stats" := "users/stats",
    "user_settings" := "users/settings"]

  /** Every key of `ALLOWED_TEMPLATES` is a plain lower-case name. */
  lemma TemplateKeysArePlainNames(k: string)
    requires k in AllowedTemplates
    ensures PlainName(k)
  {
    AllowedTemplatesTable();
  }

  /** Every name `render_partial_secure` accepts is a plain lower-case name. */
  lemma PartialNamesArePlainNames(k: string)
    requires k in PartialTable
    ensures PlainName(k)
  {
  }

  /**
   * A template key holding any character other than a lower-case letter or
   * underscore is refused: this covers every path separator and dot
   * (`../../../../etc/passwd`, `/etc/shadow`), capitals (`Home`), NUL bytes
   * and look-alike non-ASCII letters.
   */
  lemma TemplateRejectsForeignCharacter(params: Params, i: int)
    requires "template" in params && 0 <= i < |params["template"]| && !NameChar(params["template"][i])
    ensures ShowTemplateSecure(params).outcome == Plain(BadRequest, InvalidTemplateBody)
  {
    if params["template"] in AllowedTemplates {
      TemplateKeysArePlainNames(params["template"]);
    }
  }

  /** The same for partial names: a key with a foreign character is answered 404. */
  lemma PartialRejectsForeignCharacter(params: Params, i: int)
    requires "partial" in params && 0 <= i < |params["partial"]| && !NameChar(params["partial"][i])
    ensures RenderPartialSecure(params).outcome == Head(NotFound)
  {
  }

  /** The empty string and a missing parameter are not keys: both are refused. */
  lemma TemplateRejectsEmptyAndMissing(params: Params)
    requires "template" !in params || params["template"] == ""
    ensures ShowTemplateSecure(params).outcome == Plain(BadRequest, InvalidTemplateBody)
    ensures ShowTemplateSecure(params).warnings == [InvalidTemplateWarning]
  {
    if "template" in params {
      assert params["template"] !in AllowedTemplates by {
        if params["template"] in AllowedTemplates {
          TemplateKeysArePlainNames(params["template"]);
        }
      }
      assert InvalidTemplateWarning + "" == InvalidTemplateWarning;
    }
  }

  /**
   * A refused key is written to the log (the warning ends with it), while
   * the client's answer is the same for every refused key, so the answer
   * reveals nothing about why or what was refused.
   */
  lemma TemplateRejectionLogsKeyOnly(p: Params, q: Params)
    requires !ShowTemplateSecure(p).outcome.Render? && !ShowTemplateSecure(q).outcome.Render?
    ensures ShowTemplateSecure(p).outcome == ShowTemplateSecure(q).outcome
    ensures |ShowTemplateSecure(p).warnings| == 1
    ensures "template" in p ==>
      var w := ShowTemplateSecure(p).warnings[0];
      |w| >= |p["template"]| && w[|w| - |p["template"]|..] == p["template"]
  {
  }

  /** `show_template_secure` renders a template exactly when some allowed key was asked for by its exact spelling. */
  lemma TemplateRendersOnlyExactKeys(params: Params, template: string)
    ensures ShowTemplateSecure(params).outcome == Render(Str(template)) <==>
      exists k :: k in AllowedTemplates && Param(params, "template") == Str(k) && AllowedTemplates[k] == template
  {
  }

  /** The `case` over three names is the lookup of `PartialTable`, with 404 for a miss. */
  lemma PartialCaseIsTableLookup(params: Params)
    ensures RenderPartialSecure(params).outcome ==
      if HasKey(PartialTable, Param(params, "partial")) then RenderPartial(Fetch(PartialTable, Param(params, "partial")))
      else Head(NotFound)
  {
  }

  /** `show_view_secure` answers every request alike. */
  lemma ShowViewIgnoresParams(p: Params, q: Params)
    ensures ShowViewSecure(p) == ShowViewSecure(q)
    ensures ShowViewSecure(p).outcome == Render(Sym("show"))
  {
  }

  /** Only `params[:id]` affects a download, and only through the record it finds. */
  lemma DownloadDependsOnlyOnRecord(p: Params, q: Params, findBy: Value -> Option<Document>, currentUser: Option<User>)
    requires findBy(Param(p, "id")) == findBy(Param(q, "id"))
    ensures DownloadSecure(p, findBy, currentUser) == DownloadSecure(q, findBy, currentUser)
  {
  }

  /** With nobody signed in, or for a record without an owner, every download is refused. */
  lemma DownloadNeedsSignedInOwner(params: Params, findBy: Value -> Option<Document>, currentUser: Option<User>)
    requires currentUser.None? || (findBy(Param(params, "id")).Some? && findBy(Param(params, "id")).value.userId.None?)
    ensures DownloadSecure(params, findBy, currentUser).outcome == Head(Forbidden)
  {
  }

  /** A missing record and a record owned by someone else get the same answer. */
  lemma DownloadNoExistenceOracle(params: Params, other: Params, findBy: Value -> Option<Document>, user: User)
    requires findBy(Param(params, "id")).None?
    requires findBy(Param(other, "id")).Some? && (user.id.None? || findBy(Param(other, "id")).value.userId != user.id)
    ensures DownloadSecure(params, findBy, Some(user)) == DownloadSecure(other, findBy, Some(user))
  {
  }

  /**
   * The check as written lets a signed-in user without an id take any
   * document that has no owner, since `nil == nil` is true in Ruby.
   */
  lemma IdlessUserGetsOwnerlessDocumentAsWritten(params: Params, findBy: Value -> Option<Document>)
    requires findBy(Param(params, "id")).Some? && findBy(Param(params, "id")).value.userId.None?
    ensures AuthorizedToDownloadAsWritten(findBy(Param(params, "id")).value, Some(User(None)))
    ensures DownloadSecureAsWritten(params, findBy, Some(User(None))).outcome.SendFile?
    ensures DownloadSecure(params, findBy, Some(User(None))).outcome == Head(Forbidden)
  {
  }

  /**
   * The two checks differ in exactly one case: the check as written also
   * admits a signed-in user without an id to a document without an owner.
   */
  lemma AuthorizationDifference(document: Document, currentUser: Option<User>)
    ensures AuthorizedToDownloadAsWritten(document, currentUser) <==>
      AuthorizedToDownload(document, currentUser) || (currentUser == Some(User(None)) && document.userId.None?)
  {
  }

  /** For every caller that is signed out or has an id, the two checks, and so the two downloads, agree. */
  lemma AuthorizationAgreesForIdentifiedUsers(params: Params, findBy: Value -> Option<Document>, currentUser: Option<User>)
    requires currentUser.None? || currentUser.value.id.Some?
    ensures forall d :: AuthorizedToDownloadAsWritten(d, currentUser) == AuthorizedToDownload(d, currentUser)
    ensures DownloadSecureAsWritten(params, findBy, currentUser) == DownloadSecure(params, findBy, currentUser)
  {
  }
}
