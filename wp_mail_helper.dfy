/**
 * The pending-email record of `Email` (which extends `EmailNotification`):
 * the setters that fill it, `setVars`, the orchestration method `sendEmail`
 * and the self-test `sendTestEmail`. The two PHP classes are one class here,
 * `Email`, holding the inherited properties and setters.
 */
module WpMailHelper {
  import opened Wrappers
  import opened Php
  import opened Controllers

  /** A `$to`, `$cc` or `$bcc` argument: one address as a scalar, or an array of addresses. */
  datatype Recipients = Scalar(address: string) | List(addresses: seq<string>)

  /** The exceptions the mail helper throws. */
  datatype MailError =
    | InvalidTemplatePath   // 'Invalid template path.'
    | MissingTo             // 'Please set the TO email address.'
    | MissingSubject        // 'Please set the email subject.'
    | MissingContent        // 'Please set the email content.'

  /** How a call ends: it returns (without a value), or it throws. */
  datatype Status = Returned | Threw(error: MailError)

  /** The arguments of one call of the host's mail transport. */
  datatype Message = Message(to: string, subject: string, content: string, headers: seq<string>, attachments: seq<string>)

  /**
   * The host platform's collaborators, as opaque functions: the content
   * rendering pipeline, the filesystem check and template output, post
   * content lookup, and the three filters whose results reach the transport.
   */
  datatype Host = Host(
    render: string -> string,                  // processEmailContent
    fileExists: string -> bool,                // file_exists
    includeOutput: string -> string,           // what `include` of a template prints
    postContent: int -> string,                // get_the_content for a post id
    subjectFilter: string -> string,           // the 'wpmh_email_subject' filter
    contentFilter: string -> string,           // the 'wpmh_email_content' filter
    headersFilter: seq<string> -> seq<string>  // the 'wpmh_email_headers' filter
  )

  /** What `setContent` does to the content property: set it, keep it, or throw. */
  datatype Loaded = Replace(text: string) | Keep | Missing
  {
    /** The content property after `setContent`, given its value before. */
    function After(current: Option<string>): Option<string>
    {
      match this
      case Replace(text) => Some(text)
      case Keep => current
      case Missing => current
    }
  }

  /** A scalar-or-array argument coerced into the list property: an array replaces it, a scalar is appended. */
  function Normalize(current: seq<string>, arg: Recipients): seq<string>
  {
    match arg
    case List(addresses) => addresses
    case Scalar(address) => current + [address]
  }

  /** The content `setContent` would load for a message of the given type. */
  function LoadContent(host: Host, message: string, messageType: string): (r: Loaded)
    ensures r.Missing? <==> messageType == "template" && !host.fileExists(message)
    ensures r.Keep? <==> messageType == "post" && IntVal(message) == 0
    ensures messageType == "template" && host.fileExists(message) ==>
              r == Replace(host.render(host.includeOutput(message)))
    ensures messageType == "post" && IntVal(message) != 0 ==>
              r == Replace(host.render(host.postContent(IntVal(message))))
    ensures messageType != "template" && messageType != "post" ==> r == Replace(host.render(message))
  {
    if messageType == "template" then
      if host.fileExists(message) then Replace(host.render(host.includeOutput(message))) else Missing
    else if messageType == "post" then
      if IntVal(message) != 0 then Replace(host.render(host.postContent(IntVal(message)))) else Keep
    else
      Replace(host.render(message))
  }

  /** The headers `setFrom`, `setCc` and `setBcc` append, in the order `sendEmail` calls them. */
  function SetterHeaders(from: string, cc: seq<string>, bcc: seq<string>): seq<string>
  {
    FromHeaders(from) + ListHeader("CC: ", cc) + ListHeader("BCC: ", bcc)
  }

  /** One transport call per recipient, in order, all with the same subject, content, headers and attachments. */
  function Outgoing(recipients: seq<string>, subject: string, content: string, headers: seq<string>,
                    attachments: seq<string>): (r: seq<Message>)
    ensures |r| == |recipients|
    ensures forall i :: 0 <= i < |r| ==> r[i] == Message(recipients[i], subject, content, headers, attachments)
    decreases |recipients|
  {
    if recipients == [] then []
    else [Message(recipients[0], subject, content, headers, attachments)]
         + Outgoing(recipients[1..], subject, content, headers, attachments)
  }

  lemma OutgoingSnoc(recipients: seq<string>, last: string, subject: string, content: string,
                     headers: seq<string>, attachments: seq<string>)
    ensures Outgoing(recipients + [last], subject, content, headers, attachments)
         == Outgoing(recipients, subject, content, headers, attachments)
            + [Message(last, subject, content, headers, attachments)]
  {
    var l := Outgoing(recipients + [last], subject, content, headers, attachments);
    var r := Outgoing(recipients, subject, content, headers, attachments)
             + [Message(last, subject, content, headers, attachments)];
    assert |l| == |r|;
    forall i | 0 <= i < |l| ensures l[i] == r[i] {
      assert (recipients + [last])[i] == if i < |recipients| then recipients[i] else last;
    }
  }

  /** The template `sendTestEmail` sends (its directory prefix is not modelled). */
  const BoilerplateTemplate: string := "Views/email-boilerplate.html"

  /** The subject `sendTestEmail` sends, before substitution. */
  const TestSubject: string := "Test email for {{EMAIL_ADDRESS}}"

  /** The key `sendTestEmail` binds to the address in both maps. */
  const AddressKey: string := "EMAIL_ADDRESS"

  /** The test subject, with the address substituted, names the address whatever it is. */
  lemma TestSubjectSubstituted(address: string)
    ensures Substitute(TestSubject, [(AddressKey, address)]) == "Test email for " + address
  {
    var prefix := "Test email for ";
    assert TestSubject == prefix + Placeholder(AddressKey);
    SubstituteAfterPrefix(prefix, AddressKey, address);
  }

  /** The pending email record, plus a log of the transport calls made so far. */
  class Email {
    var to: seq<string>
    var from: Option<string>
    var cc: seq<string>
    var bcc: seq<string>
    var subject: Option<string>
    var content: Option<string>
    var headers: seq<string>
    var attachments: seq<string>
    var subjectVars: Vars
    var contentVars: Vars
    /** Every message handed to the transport, oldest first. */
    var sent: seq<Message>

    /** A new instance: empty lists and maps, no sender, subject or content yet. */
    constructor ()
      ensures to == [] && from == None && cc == [] && bcc == []
      ensures subject == None && content == None
      ensures headers == [] && attachments == []
      ensures subjectVars == [] && contentVars == []
      ensures sent == []
    {
      to, from, cc, bcc := [], None, [], [];
      subject, content := None, None;
      headers, attachments := [], [];
      subjectVars, contentVars := [], [];
      sent := [];
    }

    /** `setTo`: an array replaces the recipients wholesale; a scalar is appended to them. */
    method SetTo(arg: Recipients)
      modifies this`to
      ensures arg.List? ==> to == arg.addresses
      ensures arg.Scalar? ==> to == old(to) + [arg.address]
    {
      if arg.List? {
        to := arg.addresses;
      } else {
        to := to + [arg.address];
      }
    }

    /** `setFrom`: records the sender and, unless it is empty, appends the three sender headers. */
    method SetFrom(sender: string)
      modifies this`from, this`headers
      ensures from == Some(sender)
      ensures headers == old(headers) + FromHeaders(sender)
    {
      from := Some(sender);
      if !IsEmptyOrNull(from) {
        headers := headers + ["From: " + sender];
        headers := headers + ["Reply-To: " + sender];
        headers := headers + ["Return-Path: " + sender];
      }
    }

    /** `setSubject`. */
    method SetSubject(text: string)
      modifies this`subject
      ensures subject == Some(text)
    {
      subject := Some(text);
    }

    /**
     * `setContent`: a template is loaded if its path exists and throws
     * otherwise; a post is loaded only for a non-zero id; any other type is
     * raw text. Whatever is loaded goes through the rendering pipeline.
     */
    method SetContent(host: Host, message: string, messageType: string) returns (status: Status)
      modifies this`content
      ensures status == (if LoadContent(host, message, messageType).Missing? then Threw(InvalidTemplatePath) else Returned)
      ensures content == LoadContent(host, message, messageType).After(old(content))
    {
      status := Returned;
      if messageType == "template" {
        if host.fileExists(message) {
          content := Some(host.render(host.includeOutput(message)));
        } else {
          status := Threw(InvalidTemplatePath);
        }
      } else if messageType == "post" {
        var id := IntVal(message);
        if id != 0 {
          content := Some(host.render(host.postContent(id)));
        }
      } else {
        content := Some(host.render(message));
      }
    }

    /** `setHeaders`: the given headers, or the two defaults if none, go in front of those collected so far. */
    method SetHeaders(given: seq<string>)
      modifies this`headers
      ensures !IsEmptyArray(given) ==> headers == given + old(headers)
      ensures IsEmptyArray(given) ==> headers == DefaultHeaders + old(headers)
    {
      var front := given;
      if IsEmptyArray(front) {
        front := ["MIME-Version: " + "1.0", "Content-Type: " + "text/html;charset=utf-8"];
        assert "MIME-Version: " + "1.0" == DefaultHeaders[0];
        assert "Content-Type: " + "text/html;charset=utf-8" == DefaultHeaders[1];
      }
      headers := front + headers;
    }

    /** `setAttachments`: replaces the attachment list. */
    method SetAttachments(given: seq<string>)
      modifies this`attachments
      ensures attachments == given
    {
      attachments := given;
    }

    /**
     * `setCc`: an array replaces the CC list, a scalar is appended to it;
     * then, if the list is not empty, one `CC: ` header with the joined list is appended.
     */
    method SetCc(arg: Recipients)
      modifies this`cc, this`headers
      ensures arg.List? ==> cc == arg.addresses
      ensures arg.Scalar? ==> cc == old(cc) + [arg.address]
      ensures headers == old(headers) + ListHeader("CC: ", cc)
    {
      if arg.List? {
        cc := arg.addresses;
      } else {
        cc := cc + [arg.address];
      }
      if !IsEmptyArray(cc) {
        headers := headers + ["CC: " + Implode(",", cc)];
      }
    }

    /** `setBcc`: as `setCc`, for the BCC list and a `BCC: ` header. */
    method SetBcc(arg: Recipients)
      modifies this`bcc, this`headers
      ensures arg.List? ==> bcc == arg.addresses
      ensures arg.Scalar? ==> bcc == old(bcc) + [arg.address]
      ensures headers == old(headers) + ListHeader("BCC: ", bcc)
    {
      if arg.List? {
        bcc := arg.addresses;
      } else {
        bcc := bcc + [arg.address];
      }
      if !IsEmptyArray(bcc) {
        headers := headers + ["BCC: " + Implode(",", bcc)];
      }
    }

    /** `setVars`: each map is overwritten only by a non-empty map, independently of the other. */
    method SetVars(newContentVars: Vars, newSubjectVars: Vars)
      modifies this`contentVars, this`subjectVars
      ensures contentVars == if IsEmptyArray(newContentVars) then old(contentVars) else newContentVars
      ensures subjectVars == if IsEmptyArray(newSubjectVars) then old(subjectVars) else newSubjectVars
    {
      if !IsEmptyArray(newContentVars) {
        contentVars := newContentVars;
      }
      if !IsEmptyArray(newSubjectVars) {
        subjectVars := newSubjectVars;
      }
    }

    /** The host transport (`wp_mail`): one call, recorded in the log. */
    method Transport(m: Message)
      modifies this`sent
      ensures sent == old(sent) + [m]
    {
      sent := sent + [m];
    }

    /** The first four setter calls of `sendEmail`: recipients, sender, CC and BCC, with their headers. */
    method SetAddresses(to: Recipients, from: string, cc: Recipients, bcc: Recipients)
      modifies this`to, this`from, this`cc, this`bcc, this`headers
      ensures this.to == Normalize(old(this.to), to)
      ensures this.from == Some(from)
      ensures this.cc == Normalize(old(this.cc), cc)
      ensures this.bcc == Normalize(old(this.bcc), bcc)
      ensures this.headers == old(this.headers) + SetterHeaders(from, this.cc, this.bcc)
    {
      SetTo(to);
      SetFrom(from);
      SetCc(cc);
      SetBcc(bcc);
    }

    /**
     * The setter calls at the start of `sendEmail`, in its order. When
     * `setContent` throws, `setHeaders` and `setAttachments` are not reached.
     */
    method RunSetters(host: Host, to: Recipients, from: string, subject: string, message: string,
                      messageType: string, headers: seq<string>, cc: Recipients, bcc: Recipients,
                      attachments: seq<string>)
      returns (status: Status)
      modifies this`to, this`from, this`cc, this`bcc, this`subject, this`content, this`headers, this`attachments
      ensures this.to == Normalize(old(this.to), to)
      ensures this.from == Some(from)
      ensures this.cc == Normalize(old(this.cc), cc)
      ensures this.bcc == Normalize(old(this.bcc), bcc)
      ensures this.subject == Some(subject)
      ensures this.content == LoadContent(host, message, messageType).After(old(this.content))
      ensures status == (if LoadContent(host, message, messageType).Missing? then Threw(InvalidTemplatePath) else Returned)
      ensures status.Threw? ==>
                this.headers == old(this.headers) + SetterHeaders(from, this.cc, this.bcc)
                && this.attachments == old(this.attachments)
      ensures status == Returned ==>
                this.headers == (if IsEmptyArray(headers) then DefaultHeaders else headers)
                                + (old(this.headers) + SetterHeaders(from, this.cc, this.bcc))
                && this.attachments == attachments
    {
      SetAddresses(to, from, cc, bcc);
      ghost var collected := this.headers;
      SetSubject(subject);
      status := SetContent(host, message, messageType);
      if status.Threw? {
        return;
      }
      SetHeaders(headers);
      assert this.headers == (if IsEmptyArray(headers) then DefaultHeaders else headers) + collected;
      SetAttachments(attachments);
    }

    /**
     * The `foreach` of `sendEmail`: for each recipient, substitute the
     * variables into subject and content, apply the filters, and call the transport.
     */
    method Deliver(host: Host, attachments: seq<string>)
      requires subject.Some? && content.Some?
      modifies this`sent
      ensures sent == old(sent)
                      + Outgoing(to,
                                 host.subjectFilter(Substitute(subject.value, subjectVars)),
                                 host.contentFilter(Substitute(content.value, contentVars)),
                                 host.headersFilter(headers),
                                 attachments)
    {
      ghost var sentSubject := host.subjectFilter(Substitute(subject.value, subjectVars));
      ghost var sentContent := host.contentFilter(Substitute(content.value, contentVars));
      var i := 0;
      while i < |to|
        invariant 0 <= i <= |to|
        invariant sent == old(sent) + Outgoing(to[..i], sentSubject, sentContent, host.headersFilter(headers), attachments)
      {
        var recipient := to[i];
        var mailSubject := ReplaceEmailVariables(subject.value, subjectVars);
        mailSubject := host.subjectFilter(mailSubject);
        var mailContent := ReplaceEmailVariables(content.value, contentVars);
        mailContent := host.contentFilter(mailContent);
        var mailHeaders := host.headersFilter(headers);
        OutgoingSnoc(to[..i], recipient, sentSubject, sentContent, mailHeaders, attachments);
        assert to[..i + 1] == to[..i] + [recipient];
        Transport(Message(recipient, mailSubject, mailContent, mailHeaders, attachments));
        i := i + 1;
      }
      assert to[..i] == to;
    }

    /**
     * `sendEmail`: runs the setters, validates recipient, subject and content
     * in that order, then hands one message per recipient to the transport.
     * Nothing the setters did is undone when the call throws.
     */
    method SendEmail(host: Host, to: Recipients, from: string, subject: string, message: string,
                     messageType: string := "content", headers: seq<string> := [],
                     cc: Recipients := Scalar(""), bcc: Recipients := Scalar(""),
                     attachments: seq<string> := [])
      returns (status: Status)
      modifies this
      ensures this.to == Normalize(old(this.to), to)
      ensures this.from == Some(from)
      ensures this.cc == Normalize(old(this.cc), cc)
      ensures this.bcc == Normalize(old(this.bcc), bcc)
      ensures this.subject == Some(subject)
      ensures this.content == LoadContent(host, message, messageType).After(old(this.content))
      ensures this.subjectVars == old(this.subjectVars) && this.contentVars == old(this.contentVars)
      ensures LoadContent(host, message, messageType).Missing? ==>
                status == Threw(InvalidTemplatePath)
                && this.headers == old(this.headers) + SetterHeaders(from, this.cc, this.bcc)
                && this.attachments == old(this.attachments)
      ensures !LoadContent(host, message, messageType).Missing? ==>
                this.headers == (if IsEmptyArray(headers) then DefaultHeaders else headers)
                                + (old(this.headers) + SetterHeaders(from, this.cc, this.bcc))
                && this.attachments == attachments
                && (status == Threw(MissingTo) <==> IsEmptyArray(this.to))
                && (status == Threw(MissingSubject) <==> !IsEmptyArray(this.to) && IsEmptyString(subject))
                && (status == Threw(MissingContent) <==>
                      !IsEmptyArray(this.to) && !IsEmptyString(subject) && IsEmptyOrNull(this.content))
      ensures status == Returned <==>
                !LoadContent(host, message, messageType).Missing? && !IsEmptyArray(this.to)
                && !IsEmptyString(subject) && !IsEmptyOrNull(this.content)
      ensures status == Returned ==>
                this.content.Some?
                && this.sent == old(this.sent)
                   + Outgoing(this.to,
                              host.subjectFilter(Substitute(subject, this.subjectVars)),
                              host.contentFilter(Substitute(this.content.value, this.contentVars)),
                              host.headersFilter(this.headers),
                              attachments)
      ensures status != Returned ==> this.sent == old(this.sent)
    {
      status := RunSetters(host, to, from, subject, message, messageType, headers, cc, bcc, attachments);
      if status.Threw? {
        return;
      }
      if IsEmptyArray(this.to) {
        return Threw(MissingTo);
      }
      if IsEmptyOrNull(this.subject) {
        return Threw(MissingSubject);
      }
      if IsEmptyOrNull(this.content) {
        return Threw(MissingContent);
      }
      Deliver(host, attachments);
    }

    /**
     * `sendTestEmail`: binds EMAIL_ADDRESS to the address in both maps and
     * sends the boilerplate template to the address, from the address.
     */
    method SendTestEmail(host: Host, address: string) returns (status: Status)
      modifies this
      ensures contentVars == [(AddressKey, address)] && subjectVars == [(AddressKey, address)]
      ensures to == old(to) + [address] && from == Some(address)
      ensures cc == old(cc) + [""] && bcc == old(bcc) + [""]
      ensures subject == Some(TestSubject)
      ensures !host.fileExists(BoilerplateTemplate) ==>
                status == Threw(InvalidTemplatePath) && content == old(content)
                && headers == old(headers) + SetterHeaders(address, cc, bcc)
                && attachments == old(attachments)
      ensures host.fileExists(BoilerplateTemplate) ==>
                content == Some(host.render(host.includeOutput(BoilerplateTemplate)))
                && headers == DefaultHeaders + (old(headers) + SetterHeaders(address, cc, bcc))
                && attachments == []
                && (status == Returned <==> !IsEmptyOrNull(content))
                && (IsEmptyOrNull(content) ==> status == Threw(MissingContent))
      ensures status != Returned ==> sent == old(sent)
      ensures status == Returned ==>
                content.Some?
                && sent == old(sent)
                   + Outgoing(old(to) + [address],
                              host.subjectFilter("Test email for " + address),
                              host.contentFilter(Substitute(content.value, [(AddressKey, address)])),
                              host.headersFilter(headers),
                              [])
    {
      SetVars([(AddressKey, address)], [(AddressKey, address)]);
      status := SendEmail(host, Scalar(address), address, TestSubject, BoilerplateTemplate, "template");
      TestSubjectSubstituted(address);
    }
  }

  /**
   * `sendEmail` on a new instance: the header list is the supplied headers
   * (or the defaults), then the sender headers, then CC, then BCC.
   */
  method FreshInstanceHeaders(host: Host, to: Recipients, from: string, subject: string, message: string,
                              messageType: string, headers: seq<string>, cc: Recipients, bcc: Recipients,
                              attachments: seq<string>)
    returns (finalHeaders: seq<string>)
    ensures !LoadContent(host, message, messageType).Missing? ==>
              finalHeaders == (if IsEmptyArray(headers) then DefaultHeaders else headers)
                              + (FromHeaders(from)
                                 + ListHeader("CC: ", Normalize([], cc))
                                 + ListHeader("BCC: ", Normalize([], bcc)))
    ensures LoadContent(host, message, messageType).Missing? ==>
              finalHeaders == FromHeaders(from)
                              + ListHeader("CC: ", Normalize([], cc))
                              + ListHeader("BCC: ", Normalize([], bcc))
  {
    var email := new Email();
    var _ := email.SendEmail(host, to, from, subject, message, messageType, headers, cc, bcc, attachments);
    finalHeaders := email.headers;
    ghost var setters := FromHeaders(from) + ListHeader("CC: ", email.cc) + ListHeader("BCC: ", email.bcc);
    assert [] + setters == setters;
    if !LoadContent(host, message, messageType).Missing? {
      ghost var front := if IsEmptyArray(headers) then DefaultHeaders else headers;
      assert finalHeaders == front + ([] + setters);
    }
  }

  /**
   * `sendEmail` on a new instance fails the TO check exactly when the
   * recipients are an empty array: a scalar recipient, even "", passes it.
   */
  method FreshInstanceMissingTo(host: Host, to: Recipients, from: string, subject: string, message: string,
                                messageType: string, headers: seq<string>, cc: Recipients, bcc: Recipients,
                                attachments: seq<string>)
    returns (status: Status)
    ensures status == Threw(MissingTo) <==> !LoadContent(host, message, messageType).Missing? && to == List([])
  {
    var email := new Email();
    status := email.SendEmail(host, to, from, subject, message, messageType, headers, cc, bcc, attachments);
    assert IsEmptyArray(email.to) <==> to == List([]) by {
      match to
      case List(addresses) =>
      case Scalar(address) => assert |email.to| == 1;
    }
  }

  /**
   * `sendEmail` on a new instance: after a successful call one message went
   * to each recipient, with the filtered headers and the attachments; after
   * a failed one nothing was sent.
   */
  method FreshInstanceMails(host: Host, to: Recipients, from: string, subject: string, message: string,
                            messageType: string, headers: seq<string>, cc: Recipients, bcc: Recipients,
                            attachments: seq<string>)
    returns (status: Status, finalHeaders: seq<string>, mails: seq<Message>)
    ensures status == Returned ==>
              |mails| == |Normalize([], to)|
              && forall i :: 0 <= i < |mails| ==>
                   mails[i].to == Normalize([], to)[i]
                   && mails[i].headers == host.headersFilter(finalHeaders)
                   && mails[i].attachments == attachments
    ensures status != Returned ==> mails == []
  {
    var email := new Email();
    status := email.SendEmail(host, to, from, subject, message, messageType, headers, cc, bcc, attachments);
    finalHeaders := email.headers;
    mails := email.sent;
    if status == Returned {
      ghost var out := Outgoing(email.to,
                                host.subjectFilter(Substitute(subject, email.subjectVars)),
                                host.contentFilter(Substitute(email.content.value, email.contentVars)),
                                host.headersFilter(finalHeaders),
                                attachments);
      assert mails == [] + out;
      assert mails == out;
    }
  }

  /** `sendEmail` with its default arguments after the message: what it does to the recipient and header lists. */
  method SendWithDefaults(email: Email, host: Host, recipient: string, from: string, subject: string, message: string)
    modifies email
    ensures email.to == old(email.to) + [recipient]
    ensures email.cc == old(email.cc) + [""] && email.bcc == old(email.bcc) + [""]
    ensures email.headers == DefaultHeaders + (old(email.headers) + SetterHeaders(from, email.cc, email.bcc))
  {
    assert !LoadContent(host, message, "content").Missing?;
    var status := email.SendEmail(host, Scalar(recipient), from, subject, message);
  }

  /**
   * Two `sendEmail` calls with default arguments on one instance: nothing is
   * reset, so the second call's headers wrap the first call's, the CC and BCC
   * lists have grown to two empty addresses, and both recipients are on the list.
   */
  method SendTwiceOnOneInstance(host: Host, first: string, second: string, from: string, subject: string,
                                message: string)
    returns (firstHeaders: seq<string>, secondHeaders: seq<string>, recipients: seq<string>)
    ensures firstHeaders == DefaultHeaders + FromHeaders(from) + ["CC: ", "BCC: "]
    ensures secondHeaders == DefaultHeaders + firstHeaders + FromHeaders(from) + ["CC: ,", "BCC: ,"]
    ensures recipients == [first, second]
  {
    var email := new Email();
    SendWithDefaults(email, host, first, from, subject, message);
    firstHeaders := email.headers;
    assert ListHeader("CC: ", [""]) == ["CC: "] by { assert "CC: " + "" == "CC: "; }
    assert ListHeader("BCC: ", [""]) == ["BCC: "] by { assert "BCC: " + "" == "BCC: "; }
    assert [] + SetterHeaders(from, [""], [""]) == FromHeaders(from) + ["CC: ", "BCC: "];
    SendWithDefaults(email, host, second, from, subject, message);
    secondHeaders := email.headers;
    assert Implode(",", ["", ""]) == "," by { assert ["", ""][..1] == [""]; }
    assert ListHeader("CC: ", ["", ""]) == ["CC: ,"] by { assert "CC: " + "," == "CC: ,"; }
    assert ListHeader("BCC: ", ["", ""]) == ["BCC: ,"] by { assert "BCC: " + "," == "BCC: ,"; }
    recipients := email.to;
  }
}
