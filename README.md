# wp-mail-helper, modelled in Dafny

wp-mail-helper is a small WordPress library for sending email. An `Email`
object, a subclass of `EmailNotification`, collects a pending message through
setter methods:

- the recipients, the sender, and the CC and BCC lists;
- the subject and the content;
- the headers and the attachments.

The content can be raw text, a template file or a post id.
`sendEmail(...)` runs the setters in a fixed order. It then checks that there is
a recipient, a subject and some content, and finally hands one message per
recipient to WordPress's `wp_mail`. Before sending, `{{KEY}}` placeholders in
the subject and the content are replaced with the values of two ordered
key => value maps that `setVars` installs. `sendTestEmail` uses all of this to
send a bundled template to one address.

The project is split into four modules:

- `Wrappers` (wrappers.dfy): `Option`.
- `Php` (php.dfy): the PHP built-ins the core depends on:
  - `empty()` for strings, nullable strings and arrays;
  - `str_replace`, as a left-to-right, non-overlapping replacement;
  - `implode`;
  - the string-to-integer conversion of `intval` and `(int)`.

  It also holds the lemmas that characterise these built-ins.
- `Controllers` (controllers.dfy): the string logic of
  `src/Controllers/EmailNotification.php`:
  - the placeholder of a key;
  - `replaceEmailVariables`, as a loop proved against the fold `Substitute`;
  - the header lines the setters emit.
- `WpMailHelper` (wp_mail_helper.dfy): the stateful part. It is one class
  `Email` with the properties of both PHP classes (the inheritance is
  flattened), every setter, `setVars`, `sendEmail` and `sendTestEmail`.
  - Every method has a `modifies` clause for the properties it changes, and
    its contract states the whole new state.
  - The host platform is a value of type `Host`: the content rendering
    pipeline, `file_exists`, template output, post lookup and the three
    filters whose results reach the transport.
  - The transport appends to the field `sent`, a log of every `wp_mail` call.
  - A thrown exception is the result `Threw(error)`. The properties set before
    it stay set, as they do in PHP.

The code is followed even where its doc comments say something else.
`sendEmail` is documented as returning the sent status (`@return bool`), but
it returns nothing: `wp_mail`'s status only reaches an action hook. The model
returns only whether the call returned or threw.

Properties worth noting:

- `{{KEY}}` placeholders are injective.
- Substitution is a fold over the map in insertion order. Splitting the map
  splits the fold. A text without placeholders is untouched. Order matters, for
  any two keys and any values. The earlier key's value has the later key's
  substitution applied to it. The later key's value is left alone by the
  earlier key's substitution, provided the earlier key's placeholder does not
  occur inside the later key's. That holds for any two distinct keys without
  braces.
- `str_replace` leaves a text without a match unchanged, and its result length
  is exact.
- `intval` gives 0 exactly when the numeric prefix is all zeros.
- `sendEmail` fails with each of its three validation errors in exactly the
  cases listed. On success it sends exactly one message per recipient, all
  with the filtered headers.
- The header list is the supplied headers (or the two defaults), then any
  headers left from before, then the sender, CC and BCC headers.
- Nothing is reset between two `sendEmail` calls on one instance: the second
  call's headers wrap the first call's.

## Model

| member | source | states |
|---|---|---|
| Php.IsEmptyString | src/Email.php:64-66 | PHP's `empty()` on a string: true for "" and "0" and nothing else (so a subject or sender of "0" counts as missing) |
| Php.IsEmptyOrNull | src/Email.php:67-69 | `empty()` on a property that may still be null: true for null, "" and "0" |
| Php.IsEmptyArray | src/Email.php:61-63 | `empty()` on an array: true exactly for the array with no elements |
| Php.StrReplace | src/Controllers/EmailNotification.php:159-163 | `str_replace` of one string: scans left to right, replaces each match and resumes after it, and returns the subject for an empty search string. Characterised by StrReplaceNoMatch, StrReplaceLeading, StrReplaceSkipsPrefix, StrReplaceLength, StrReplaceSelf and ReplaceCountPositive |
| Php.StrReplaceNoMatch | src/Controllers/EmailNotification.php:159-163 | `str_replace` leaves a subject unchanged when the search string does not occur in it |
| Php.ReplaceCountPositive | src/Controllers/EmailNotification.php:159-163 | for a non-empty search string, at least one replacement happens exactly when the search string occurs in the subject |
| Php.StrReplaceLength | src/Controllers/EmailNotification.php:159-163 | the result's length is the subject's length plus, per replacement, the difference between the replacement's and the search string's lengths |
| Php.StrReplaceSelf | src/Controllers/EmailNotification.php:159-163 | replacing a string by itself changes nothing |
| Php.StrReplaceSkipsPrefix | src/Controllers/EmailNotification.php:159-163 | a prefix in which the search string's first character never appears is copied through unchanged |
| Php.StrReplaceLeading | src/Controllers/EmailNotification.php:159-163 | a subject that starts with the search string has that occurrence replaced, and the scan resumes after it |
| Php.Implode | src/Controllers/EmailNotification.php:313 | `implode` (also the BCC header at :333): the pieces with the glue between each pair of neighbours, "" for no pieces. Characterised by ImplodeCons and ImplodeLength |
| Php.ImplodeCons | src/Controllers/EmailNotification.php:313 | joining a non-empty list is its first element, the glue, then the join of the rest |
| Php.ImplodeLength | src/Controllers/EmailNotification.php:313 | a non-empty join is as long as all the pieces plus one glue between each pair of neighbours |
| Php.TrimLeft | src/Controllers/EmailNotification.php:254-255 | `intval` skips exactly the leading whitespace: the result is a suffix that does not start with a space, and only spaces were removed |
| Php.LeadingDigits | src/Controllers/EmailNotification.php:254-255 | the digits `intval` reads are the longest prefix made of digits |
| Php.NumericPrefix | src/Controllers/EmailNotification.php:254-255 | the digits `intval` reads are the longest run of digits that starts right after the leading whitespace and the optional sign; `IntVal` is the signed value of exactly this run |
| Php.IntVal | src/Controllers/EmailNotification.php:254-255 | `intval` and the `(int)` cast of a string: the signed decimal value of NumericPrefix, negative when a '-' follows the leading whitespace. Characterised by TrimLeft, LeadingDigits, NumericPrefix and IntValZero |
| Php.DigitsValueZero | src/Controllers/EmailNotification.php:254 | a digit string has value 0 exactly when every digit is '0' |
| Php.IntValZero | src/Controllers/EmailNotification.php:254 | `intval` is 0 (so a post id is rejected) exactly when every digit of its numeric prefix is '0', including when there are no digits |
| Controllers.Placeholder | src/Controllers/EmailNotification.php:178-181 | the placeholder is `{{`, then the key, then `}}` |
| Controllers.PlaceholderInjective | src/Controllers/EmailNotification.php:178-181 | two keys with the same placeholder are the same key |
| Controllers.Substitute | src/Controllers/EmailNotification.php:157-167 | the value `replaceEmailVariables` computes: a fold over the map in insertion order, each step one `str_replace` of a key's placeholder by its value. Characterised by SubstituteUntouched, SubstituteConcat, SubstituteAfterPrefix and SubstitutionOrderMatters, and ReplaceEmailVariables is proved equal to it |
| Controllers.ReplaceEmailVariables | src/Controllers/EmailNotification.php:155-168 | an empty map returns the content unchanged; otherwise the loop's result is the fold `Substitute`, one `str_replace` per map entry in insertion order |
| Controllers.SubstituteUntouched | src/Controllers/EmailNotification.php:157-167 | content in which no key's placeholder occurs is returned unchanged |
| Controllers.SubstituteConcat | src/Controllers/EmailNotification.php:158-164 | substituting the entries of `first` followed by those of `second` (sequence concatenation, not PHP's `+` or `array_merge`) is substituting `first`, then `second` |
| Controllers.SubstituteAfterPrefix | src/Controllers/EmailNotification.php:158-164 | a text made of a brace-free prefix and one placeholder becomes the prefix followed by that key's value |
| Controllers.HelloExample | src/Controllers/EmailNotification.php:139-146 | the documented example: `Hello, {{EMAIL_ADDRESS}}` with EMAIL_ADDRESS bound becomes `Hello, ` and the address, for every address |
| Controllers.SubstitutionOrderMatters | src/Controllers/EmailNotification.php:158-164 | for all keys `a`, `b` and values `v`, `x`, take `a`'s placeholder as the content. With `(a, v)` before `(b, x)`, the result is `v` with `b`'s placeholder replaced by `x`. With `(b, x)` first, the result is `v` unchanged, whenever `b`'s placeholder does not occur inside `a`'s |
| Controllers.PlaceholderNotInOther | src/Controllers/EmailNotification.php:158-164 | the placeholder of a key without braces never occurs inside the placeholder of a different key without braces, so such keys never match each other's placeholders |
| Controllers.SubstitutionOrderExample | src/Controllers/EmailNotification.php:158-164 | the law for the keys `A` and `B`, with `A` bound to `{{B}}`: the content `{{A}}` becomes `x` in one order and `{{B}}` in the other |
| Controllers.FromHeaders | src/Controllers/EmailNotification.php:210-214 | the headers `setFrom` appends: From, Reply-To and Return-Path with the sender, in that order, or none when the sender is "" or "0"; SetFrom's contract is stated with it |
| Controllers.ListHeader | src/Controllers/EmailNotification.php:312-314 | the header `setCc` (and `setBcc`, :332-334) appends: the prefix followed by the comma-joined list, or nothing for an empty list; SetCc's and SetBcc's contracts are stated with it |
| WpMailHelper.Normalize | src/Controllers/EmailNotification.php:192-196 | the scalar-or-array coercion of `setTo` (and `setCc` :306-310, `setBcc` :326-330): an array replaces the list, a scalar is appended to it, as SetTo's, SetCc's and SetBcc's contracts say case by case; SetAddresses, RunSetters and SendEmail state their lists with it |
| WpMailHelper.SetterHeaders | src/Email.php:53-55 | the headers `setFrom`, `setCc` and `setBcc` append, in the order `sendEmail` calls them; SetAddresses, RunSetters and SendEmail state their header lists with it |
| WpMailHelper.LoadContent | src/Controllers/EmailNotification.php:241-263 | a template throws exactly when its file is missing, and otherwise its rendered output is loaded; a post keeps the old content exactly when its id converts to 0, and otherwise its rendered content is loaded; any other type loads the rendered text |
| WpMailHelper.Outgoing | src/Email.php:71-108 | one transport call per recipient, in order, each with that recipient and the common subject, content, headers and attachments |
| WpMailHelper.TestSubjectSubstituted | src/Email.php:148-151 | the test subject with EMAIL_ADDRESS bound is `Test email for ` followed by the address, for every address |
| WpMailHelper.Email.constructor | src/Controllers/EmailNotification.php:24-114 | a new instance has empty lists and maps and no sender, subject or content |
| WpMailHelper.Email.SetTo | src/Controllers/EmailNotification.php:190-197 | an array replaces the recipients; a scalar is appended to them |
| WpMailHelper.Email.SetFrom | src/Controllers/EmailNotification.php:207-215 | the sender is recorded; the From, Reply-To and Return-Path headers are appended, in that order, unless the sender is empty ("" or "0") |
| WpMailHelper.Email.SetSubject | src/Controllers/EmailNotification.php:224-227 | the subject is recorded |
| WpMailHelper.Email.SetContent | src/Controllers/EmailNotification.php:241-263 | throws "Invalid template path" exactly when `LoadContent` says the template is missing; the new content is what `LoadContent` loads, or the old content when it keeps it or throws |
| WpMailHelper.Email.SetHeaders | src/Controllers/EmailNotification.php:272-281 | the given headers, or the two defaults when none are given, are placed in front of the headers collected so far |
| WpMailHelper.Email.SetAttachments | src/Controllers/EmailNotification.php:292-295 | the attachment list is replaced |
| WpMailHelper.Email.SetCc | src/Controllers/EmailNotification.php:304-315 | an array replaces the CC list and a scalar is appended to it; then exactly one `CC: ` header with the comma-joined list is appended, or none when the list is empty |
| WpMailHelper.Email.SetBcc | src/Controllers/EmailNotification.php:324-335 | the same as SetCc, for the BCC list and a `BCC: ` header |
| WpMailHelper.Email.SetVars | src/Email.php:119-127 | each map is overwritten only by a non-empty map, independently of the other |
| WpMailHelper.Email.Transport | src/Email.php:93-99 | each `wp_mail` call is recorded at the end of the log |
| WpMailHelper.Email.SetAddresses | src/Email.php:52-55 | after the first four setters, the recipient, sender, CC and BCC properties are set, and the sender, CC and BCC headers are appended in that order |
| WpMailHelper.Email.RunSetters | src/Email.php:52-59 | all eight setters in order; when `setContent` throws, the headers and attachments are left as the earlier setters made them |
| WpMailHelper.Email.Deliver | src/Email.php:71-108 | the loop appends exactly `Outgoing` to the log: per recipient, the filtered substituted subject and content, the filtered headers and the attachments |
| WpMailHelper.Email.SendEmail | src/Email.php:35-109 | the full state after the call; it throws "Invalid template path", "TO", "subject" and "content" each in exactly its case, checked in that order; it returns normally exactly when all checks pass, and then it has sent `Outgoing` for the recipients; if not, nothing was sent |
| WpMailHelper.Email.SendTestEmail | src/Email.php:137-155 | the whole new state. Both maps bind EMAIL_ADDRESS to the address. Without the template file, it throws "Invalid template path" after the address setters, leaving the headers and attachments as those setters made them and sending nothing. A template that renders empty throws "content" and sends nothing. Otherwise every recipient gets the subject `Test email for <address>`, filtered |
| WpMailHelper.FreshInstanceHeaders | src/Email.php:52-58 | on a new instance the headers are the supplied ones (or the defaults), then sender, CC and BCC; when the template is missing, only the last three |
| WpMailHelper.FreshInstanceMissingTo | src/Email.php:52-63 | on a new instance the TO check fails exactly when the recipients are an empty array, so a scalar "" recipient passes |
| WpMailHelper.FreshInstanceMails | src/Email.php:61-108 | on a new instance a successful call sends one message to each recipient, with the filtered headers and the given attachments; a failed call sends nothing |
| WpMailHelper.SendWithDefaults | src/Email.php:35-59 | with the default arguments, a scalar recipient and "" CC and BCC addresses are appended, and the default headers go in front |
| WpMailHelper.SendTwiceOnOneInstance | src/Email.php:52-59 | nothing is reset between calls: the second call's headers wrap the first call's, with CC and BCC headers for two empty addresses, and both recipients remain on the list |

## Left out

- `processEmailContent` (wptexturize, autoembed, wpautop, shortcodes) is the opaque function `Host.render`, because it belongs to WordPress.
- The template `include` with output buffering, `file_exists` and `get_the_content` are the host functions `includeOutput`, `fileExists` and `postContent`. A template that runs code with side effects is not modelled.
- The `wp_mail` return status is not modelled, because the code only passes it to the `wpmh_after_sending_email` action and returns nothing.
- Filters are pure functions of their argument, so a filter that keeps state between recipients is not modelled. The `wpmh_email_from` filter is left out because the code never uses its result.
- The `wpmh_before_sending_email` and `wpmh_after_sending_email` actions are left out, because they are hooks with no effect on the object.
- The `ABSPATH` guards (the `die` at file level and the exception in `sendEmail`) are left out: the model assumes it runs inside WordPress.
- `trailingslashit(dirname(__FILE__))` is left out of `sendTestEmail`'s template path, which is the relative path `Views/email-boilerplate.html`, because it depends on where the files are installed.
- Strings are sequences of characters, not PHP's byte strings. For valid UTF-8 text, replacement and joining give the same result either way. Lengths (as in Php.StrReplaceLength) count characters, not bytes, and text that is not valid UTF-8 is not modelled.
- A variable map (`Vars`) is an ordered list of pairs, so it can hold the same key twice, which a PHP array cannot. For maps with distinct keys the fold is the same as the array's `foreach`.
- Header arrays are lists. String keys in the `$headers` argument, for which `array_merge` in `setHeaders` (src/Controllers/EmailNotification.php:280) overwrites equal keys instead of appending, are not modelled.
- Arguments are strings or lists of strings. Values of other types, null, integer keys in the variable maps, and the `TypeError`s of `strict_types` are not modelled.
- Php.IntVal: does not model the fraction and exponent forms PHP accepts (such as "1e3"), or the saturation at 64-bit bounds. It reads optional leading whitespace, an optional sign and leading decimal digits.
- Visibility (`protected`, `static`) and the class hierarchy are not modelled, because `Email` holds the properties and setters of both classes.
