# Allow-list rendering gate (CVE-2016-0752 example controllers)

This project models a Rails example file that shows CVE-2016-0752, directory
traversal through Action View's `render`. `VulnerableController` passes
request parameters straight to `render`. `SecureController` picks what to
render from a fixed set.

Each controller action is modelled as a pure function. It takes the request
parameters and returns a `Response`. A response holds the one terminal call
the action makes (`render`, `render partial:`, `render template:`,
`render file:`, `send_file`, `render plain:` with a status, or `head`). It
also holds the lines the action writes with `Rails.logger.warn`.

- `ruby_values.dfy` (`RubyValues`): the Ruby behaviour the actions rely on.
  `params[:x]` reads as `nil` when absent. `"#{v}"` interpolates `nil` as the
  empty string. A Hash literal is its associations stored left to right, so
  a repeated key keeps its last value. `Hash#key?` and `Hash#[]` are modelled,
  with `[]` giving `nil` for a missing key.
- `responses.dfy` (`Responses`): outcomes, statuses, the `Document` record
  and the signed-in `User`.
- `secure_controller.dfy` (`SecureController`): `ALLOWED_TEMPLATES` and the
  four secure actions. `authorized_to_download?` and `download_secure` are
  given both as written and with the ownership check corrected (see Findings).
- `vulnerable_controller.dfy` (`VulnerableController`): the four
  pass-through actions.
- `secure_properties.dfy` (`SecureProperties`): what the secure actions
  guarantee for every request.
- `contrast.dfy` (`Contrast`): both controllers side by side.

`Document.find_by(id: ...)` is a parameter `findBy` of the download action.
It maps the `id` parameter to the record found, if any. `current_user` is a
parameter too, an `Option<User>`. Both `document.user_id` and
`current_user.id` may be `nil`, so both are `Option<int>`.

A refused template key gets 400 with the body `Invalid template` and one
logged warning. An unknown partial gets 404. A missing or foreign document
gets 403.

## Model

| member | source | states |
|---|---|---|
| RubyValues.HashLiteralKeys | vulnerable_controller_example.rb:60-65 | the Hash a literal builds has exactly the keys written in the literal |
| RubyValues.HashLiteralValueWritten | vulnerable_controller_example.rb:60-65 | every value the Hash holds for a key is written next to that key in the literal |
| RubyValues.HashLiteralLastWins | vulnerable_controller_example.rb:60-65 | for a key not repeated later in the literal, the Hash holds the value written with it |
| SecureController.AllowedTemplatesTable | vulnerable_controller_example.rb:60-65 | `ALLOWED_TEMPLATES` is exactly the four-entry table home, about, contact, products mapped to pages/home, pages/about, pages/contact, pages/products |
| SecureController.AllowedTemplateValues | vulnerable_controller_example.rb:60-65 | the templates the table can yield are exactly the four vetted pages |
| SecureController.ShowTemplateSecure | vulnerable_controller_example.rb:67-78 | renders a template iff the parameter is a String that is exactly a key of the table; it then renders that key's template, a vetted page, and logs nothing; otherwise it answers 400 `Invalid template` and logs exactly one warning, the fixed prefix followed by the interpolated key |
| SecureController.RenderPartialSecure | vulnerable_controller_example.rb:81-95 | `user_info`, `user_stats` and `user_settings` (and only they) render `users/info`, `users/stats` and `users/settings` respectively; everything else, `nil` included, is a 404; nothing is logged |
| SecureController.DownloadSecure | vulnerable_controller_example.rb:106-121 | sends a file iff the lookup found a record and a user is signed in whose id is present and equal to the record's `user_id`; the path, type and filename sent are the record's, with disposition `attachment`; otherwise 403; nothing is logged. It uses the corrected ownership check (see Findings) |
| SecureProperties.AuthorizationDifference | vulnerable_controller_example.rb:125-128 | the check as written holds exactly when the corrected check holds or a signed-in user whose id is `nil` asks for a document whose `user_id` is NULL; that is the only difference |
| SecureProperties.AuthorizationAgreesForIdentifiedUsers | vulnerable_controller_example.rb:106-128 | for a signed-out caller or a user with an id, the check as written and the corrected one agree, and so do the two downloads |
| SecureProperties.IdlessUserGetsOwnerlessDocumentAsWritten | vulnerable_controller_example.rb:127 | as written, a signed-in user whose id is `nil` is authorized for, and is sent, any document whose `user_id` is NULL; the corrected download refuses it with 403 |
| SecureProperties.DownloadNeedsSignedInOwner | vulnerable_controller_example.rb:125-128 | with no signed-in user, or for a record with no owner, the corrected download is refused with 403 |
| SecureProperties.DownloadDependsOnlyOnRecord | vulnerable_controller_example.rb:107-112 | two requests whose `id` finds the same record get the same response; no other parameter matters |
| SecureProperties.DownloadNoExistenceOracle | vulnerable_controller_example.rb:112-120 | a missing record, and a record the signed-in user does not own or cannot be matched to, get identical responses |
| SecureProperties.TemplateKeysArePlainNames | vulnerable_controller_example.rb:60-65 | every key of the table is a non-empty string of lower-case letters and underscores |
| SecureProperties.PartialNamesArePlainNames | vulnerable_controller_example.rb:85-91 | every partial name the `case` accepts is a non-empty string of lower-case letters and underscores |
| SecureProperties.TemplateRejectsForeignCharacter | vulnerable_controller_example.rb:71-77 | a template key with any character other than a lower-case letter or underscore is refused with 400: slashes, dots, capitals, NUL and non-ASCII look-alikes |
| SecureProperties.PartialRejectsForeignCharacter | vulnerable_controller_example.rb:85-94 | a partial name with any character other than a lower-case letter or underscore is answered 404 |
| SecureProperties.TemplateRejectsEmptyAndMissing | vulnerable_controller_example.rb:68-77 | an empty or missing template key is refused with 400, and the warning is the bare prefix |
| SecureProperties.TemplateRejectionLogsKeyOnly | vulnerable_controller_example.rb:73-77 | all refused keys get the same client response; exactly one warning is logged, and it ends with the refused key |
| SecureProperties.TemplateRendersOnlyExactKeys | vulnerable_controller_example.rb:71-72 | a template is rendered iff some key of the table, spelled exactly, was requested and maps to it |
| SecureProperties.PartialCaseIsTableLookup | vulnerable_controller_example.rb:85-94 | the three-way `case` gives the same outcome as looking the name up in a three-entry table, with 404 for a miss |
| SecureProperties.ShowViewIgnoresParams | vulnerable_controller_example.rb:98-102 | `show_view_secure` gives every request the same response: it renders the `show` view |
| Contrast.VulnerablePassesParamThrough | vulnerable_controller_example.rb:13-53 | each vulnerable action hands its parameter to `render`, `render partial:`, `render template:` or `render file:` exactly as sent |
| Contrast.SecureRendersOnlyVetted | vulnerable_controller_example.rb:58-121 | for every request, whatever a secure action renders is a vetted template, a vetted partial or the `show` view, and it never uses `render template:` or `render file:` |
| Contrast.TemplateReachContrast | vulnerable_controller_example.rb:13-20 | every string outside the vetted templates is rendered by `show_template` for some request and by `show_template_secure` for none |
| Contrast.TraversalRequests | vulnerable_controller_example.rb:12-53 | the attack requests named beside the vulnerable actions reach the renderer verbatim there; the secure actions refuse them, render only `show`, or send only a stored record's path |
| Contrast.CaseSensitiveKeys | vulnerable_controller_example.rb:60-77 | `home` renders `pages/home` while `Home` is refused: matching is exact and case-sensitive |

## Findings

| source | as written | input that shows it | evidently intended | confidence | as-written member | corrected member |
|---|---|---|---|---|---|---|
| vulnerable_controller_example.rb:127 | `current_user && document.user_id == current_user.id` compares with Ruby's `==`, under which `nil == nil` is true | a signed-in `current_user` whose `id` is `nil` (an unsaved user object) asks for a document whose `user_id` is NULL: the file is sent | only a user with an id equal to the document's `user_id` may download it | low: depends on whether the application can sign in an unsaved user; not executed | SecureProperties.IdlessUserGetsOwnerlessDocumentAsWritten | SecureController.DownloadSecure |

## Left out

- The Rails rendering pipeline: how `render` resolves a string, a template, a partial or a file to disk, and what it does with `nil`. The outcome records the argument handed to `render`, not what the framework then reads.
- `send_file` delivery, HTTP status codes and the wire format beyond the status names 400, 404 and 403.
- `Rails.logger` I/O: a warning is a string in the response's `warnings`.
- `Document.find_by` database access, including how ActiveRecord casts the `id` string. The lookup is a function parameter.
- The session machinery behind `current_user`. It is an `Option<User>` parameter.
- Parameters whose value is an array or a nested hash rather than a string. Only strings and absent parameters are modelled.
- Routing, filters and the controller lifecycle of `ApplicationController`.
- `.freeze`: Dafny constants are immutable, so no action can change `ALLOWED_TEMPLATES`. The same key therefore always gets the same outcome, since each action is a function.
- The comment blocks on testing, patched versions and `bundle audit` (lines 131-155). They contain no logic.
- SecureController.DownloadSecure: uses the corrected ownership check, so it refuses a signed-in user whose id is `nil` where the code as written sends an ownerless document; the code as written is SecureController.DownloadSecureAsWritten.
