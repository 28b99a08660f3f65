/**
 * CVE-2016-0752 side by side: in `VulnerableController` the request chooses
 * any string at all as the template, partial or file to render; in
 * `SecureController` the set of things that can be rendered is fixed in
 * advance and no request reaches outside it.
 */
module Contrast {
  import opened RubyValues
  import opened Responses
  import SecureController
  import VulnerableController
  import opened SecureProperties

  /** What a secure action may hand to the renderer: a vetted template or partial, or the `show` view. */
  predicate Vetted(o: Outcome)
  {
    match o
    case Render(v) => v == Sym("show") || (v.Str? && v.s in SecureController.TemplateRefs)
    case RenderPartial(v) => v.Str? && v.s in SecureController.PartialRefs
    case RenderTemplate(_) => false
    case RenderFile(_) => false
    case _ => true
  }

  /** Every vulnerable action passes its parameter to `render` exactly as the request sent it. */
  lemma VulnerablePassesParamThrough(params: Params)
    ensures VulnerableController.ShowTemplate(params).outcome == Render(Param(params, "template"))
    ensures VulnerableController.RenderPartial(params).outcome == RenderPartial(Param(params, "partial"))
    ensures VulnerableController.DynamicView(params).outcome == RenderTemplate(Param(params, "view"))
    ensures VulnerableController.ShowFile(params).outcome == RenderFile(Param(params, "file"))
  {
  }

  /** Whatever the request, what a secure action renders is vetted. */
  lemma SecureRendersOnlyVetted(params: Params, findBy: Value -> Option<Document>, currentUser: Option<User>)
    ensures Vetted(SecureController.ShowTemplateSecure(params).outcome)
    ensures Vetted(SecureController.RenderPartialSecure(params).outcome)
    ensures Vetted(SecureController.ShowViewSecure(params).outcome)
    ensures Vetted(SecureController.DownloadSecure(params, findBy, currentUser).outcome)
  {
  }

  /**
   * For any string outside the vetted templates, some request makes
   * `show_template` render it, while no request makes `show_template_secure`
   * render it.
   */
  lemma TemplateReachContrast(target: string, params: Params)
    requires target !in SecureController.TemplateRefs
    ensures VulnerableController.ShowTemplate(map["template" := target]).outcome == Render(Str(target))
    ensures SecureController.ShowTemplateSecure(params).outcome != Render(Str(target))
  {
  }

  /** The attack requests from the vulnerable actions' comments, against both controllers. */
  lemma TraversalRequests(findBy: Value -> Option<Document>, currentUser: Option<User>)
    ensures
      var p := map["template" := "../../../../etc/passwd"];
      && VulnerableController.ShowTemplate(p).outcome == Render(Str("../../../../etc/passwd"))
      && SecureController.ShowTemplateSecure(p).outcome == Plain(BadRequest, SecureController.InvalidTemplateBody)
      && SecureController.ShowTemplateSecure(p).warnings
         == [SecureController.InvalidTemplateWarning + "../../../../etc/passwd"]
    ensures
      var p := map["partial" := "../../../../config/database"];
      && VulnerableController.RenderPartial(p).outcome == RenderPartial(Str("../../../../config/database"))
      && SecureController.RenderPartialSecure(p).outcome == Head(NotFound)
    ensures
      var p := map["view" := "../../../../app/config/secrets"];
      && VulnerableController.DynamicView(p).outcome == RenderTemplate(Str("../../../../app/config/secrets"))
      && SecureController.ShowViewSecure(p).outcome == Render(Sym("show"))
    ensures
      var p := map["file" := "/etc/shadow"];
      && VulnerableController.ShowFile(p).outcome == RenderFile(Str("/etc/shadow"))
      && var r := SecureController.DownloadSecure(p, findBy, currentUser).outcome;
         r.SendFile? ==> findBy(Nil).Some? && r.path == findBy(Nil).value.filePath
  {
    var p := map["template" := "../../../../etc/passwd"];
    TemplateRejectsForeignCharacter(p, 0);
    var q := map["partial" := "../../../../config/database"];
    PartialRejectsForeignCharacter(q, 0);
  }

  /** Exact, case-sensitive matching: `home` renders its page, `Home` is refused. */
  lemma CaseSensitiveKeys()
    ensures SecureController.ShowTemplateSecure(map["template" := "home"]).outcome == Render(Str("pages/home"))
    ensures SecureController.ShowTemplateSecure(map["template" := "Home"]).outcome
         == Plain(BadRequest, SecureController.InvalidTemplateBody)
  {
    SecureController.AllowedTemplatesTable();
    TemplateRejectsForeignCharacter(map["template" := "Home"], 0);
  }
}
