/**
 * `VulnerableController`: each action hands its request parameter, unchecked,
 * to `render`, so the parameter itself chooses the template, partial or file.
 */
module VulnerableController {
  import opened RubyValues
  import opened Responses

  /** `show_template`: `render params[:template]`. */
  function ShowTemplate(params: Params): (r: Response)
  {
    Response(Render(Param(params, "template")), [])
  }

  /** `render_partial`: `render partial: params[:partial]`. */
  function RenderPartial(params: Params): (r: Response)
  {
    Response(Outcome.RenderPartial(Param(params, "partial")), [])
  }

  /** `dynamic_view`: `render template: params[:view]`. */
  function DynamicView(params: Params): (r: Response)
  {
    Response(RenderTemplate(Param(params, "view")), [])
  }

  /** `show_file`: `render file: params[:file]`. */
  function ShowFile(params: Params): (r: Response)
  {
    Response(RenderFile(Param(params, "file")), [])
  }
}
