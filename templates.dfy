/**
 * Message composition for the reminder executor: the HTML e-mail body and
 * the SMS text. Both are plain concatenations of fixed text and the
 * arguments; arguments are inserted verbatim, with no HTML escaping.
 */
module Templates {

  /**
   * The fixed text of an e-mail, cut at the places where the style sheet and
   * the three arguments go.
   */
  datatype Frame = Frame(
    head: string,        // the page prologue, up to the opening of the style block
    style: string,       // the style sheet
    opening: string,     // from the end of the style block to "Hi "
    beforeName: string,  // from the end of the user name to the bold document name
    beforeDate: string,  // from the end of the document name to the bold expiration date
    tail: string)        // from the end of the expiration date to the end of the page

  /** Where the user name starts in an e-mail built on `f`. */
  function UserNameAt(f: Frame): nat
  {
    |f.head| + |f.style| + |f.opening|
  }

  /** Where the document name starts, after a user name of `userNameLength` characters. */
  function DocumentNameAt(f: Frame, userNameLength: nat): nat
  {
    UserNameAt(f) + userNameLength + |f.beforeName|
  }

  /** Where the expiration date starts, after the user name and the document name. */
  function ExpirationDateAt(f: Frame, userNameLength: nat, documentNameLength: nat): nat
  {
    DocumentNameAt(f, userNameLength) + documentNameLength + |f.beforeDate|
  }

  /**
   * An e-mail built on frame `f`: every fixed piece and every argument stands,
   * character for character, at its place, and nothing else is in the text.
   */
  function Fill(f: Frame, userName: string, documentName: string, expirationDate: string): (r: string)
    ensures |r| == ExpirationDateAt(f, |userName|, |documentName|) + |expirationDate| + |f.tail|
    ensures r[..|f.head|] == f.head
    ensures r[|f.head|..|f.head| + |f.style|] == f.style
    ensures r[|f.head| + |f.style|..UserNameAt(f)] == f.opening
    ensures r[UserNameAt(f)..UserNameAt(f) + |userName|] == userName
    ensures r[UserNameAt(f) + |userName|..DocumentNameAt(f, |userName|)] == f.beforeName
    ensures r[DocumentNameAt(f, |userName|)..DocumentNameAt(f, |userName|) + |documentName|] == documentName
    ensures r[DocumentNameAt(f, |userName|) + |documentName|..ExpirationDateAt(f, |userName|, |documentName|)] == f.beforeDate
    ensures r[ExpirationDateAt(f, |userName|, |documentName|)..ExpirationDateAt(f, |userName|, |documentName|) + |expirationDate|] == expirationDate
    ensures r[ExpirationDateAt(f, |userName|, |documentName|) + |expirationDate|..] == f.tail
  {
    var u := UserNameAt(f);
    var d := DocumentNameAt(f, |userName|);
    var x := ExpirationDateAt(f, |userName|, |documentName|);
    var r := f.head + f.style + f.opening + userName + f.beforeName + documentName + f.beforeDate + expirationDate + f.tail;
    assert r[..|f.head|] == f.head;
    assert r[|f.head|..|f.head| + |f.style|] == f.style;
    assert r[|f.head| + |f.style|..u] == f.opening;
    assert r[u..u + |userName|] == userName;
    assert r[u + |userName|..d] == f.beforeName;
    assert r[d..d + |documentName|] == documentName;
    assert r[d + |documentName|..x] == f.beforeDate;
    assert r[x..x + |expirationDate|] == expirationDate;
    assert r[x + |expirationDate|..] == f.tail;
    r
  }

  /** Knowing the frame and how long the user and document names were, the e-mail gives back its arguments. */
  function EmailFields(f: Frame, email: string, userNameLength: nat, documentNameLength: nat): (r: (string, string, string))
    requires ExpirationDateAt(f, userNameLength, documentNameLength) + |f.tail| <= |email|
  {
    var u := UserNameAt(f);
    var d := DocumentNameAt(f, userNameLength);
    var x := ExpirationDateAt(f, userNameLength, documentNameLength);
    (email[u..u + userNameLength], email[d..d + documentNameLength], email[x..|email| - |f.tail|])
  }

  lemma EmailRoundTrip(f: Frame, userName: string, documentName: string, expirationDate: string)
    ensures var email := Fill(f, userName, documentName, expirationDate);
      EmailFields(f, email, |userName|, |documentName|) == (userName, documentName, expirationDate)
  {
  }

  /** The page prologue, up to the opening of the style block. */
  const EmailHead: string := "\n\t\t<!DOCTYPE html>\n\t\t<html>\n\t\t<head>\n\t\t\t<meta charset=\"UTF-8\">\n\t\t\t<meta name=\"viewport\" content=\"width=device-width, initial-scale=1.0\">\n\t\t\t<title>Document Expiration Reminder</title>\n\t\t\t<style>\n\t\t\t\t"

  /** The style sheet every e-mail embeds. */
  const EmailStyle: string := "\n\t\tbody {\n\t\t\tfont-family: Arial, sans-serif;\n\t\t\tbackground-color: #f4f4f4;\n\t\t\tmargin: 0;\n\t\t\tpadding: 0;\n\t\t}\n\t\t.container {\n\t\t\tbackground-color: #ffffff;\n\t\t\tmargin: 50px auto;\n\t\t\tpadding: 20px;\n\t\t\tborder-radius: 8px;\n\t\t\tbox-shadow: 0 0 10px rgba(0, 0, 0, 0.1);\n\t\t\tmax-width: 600px;\n\t\t}\n\t\th1 {\n\t\t\tcolor: #333333;\n\t\t}\n\t\tp {\n\t\t\tcolor: #555555;\n\t\t\tline-height: 1.6;\n\t\t}\n\t\t.button {\n\t\t\tdisplay: inline-block;\n\t\t\tpadding: 10px 20px;\n\t\t\tmargin-top: 20px;\n\t\t\tbackground-color: #28a745;\n\t\t\tcolor: #ffffff;\n\t\t\ttext-decoration: none;\n\t\t\tborder-radius: 5px;\n\t\t}\n\t\t.footer {\n\t\t\tmargin-top: 30px;\n\t\t\tfont-size: 12px;\n\t\t\tcolor: #888888;\n\t\t}\n\t"

  /** From the end of the style block to the greeting "Hi ". */
  const EmailOpening: string := "\n\t\t\t</style>\n\t\t</head>\n\t\t<body>\n\t\t\t<div class=\"container\">\n\t\t\t\t<h1>Reminder: Your Document is Expiring Soon</h1>\n\t\t\t\t<p>Hi "

  /** From the end of the user name to the bold, quoted document name. */
  const EmailBeforeName: string := ",</p>\n\t\t\t\t<p>This is a friendly reminder that your document \"<strong>"

  /** From the end of the document name to the bold expiration date. */
  const EmailBeforeDate: string := "</strong>\" is set to expire on <strong>"

  /** From the end of the expiration date to the end of the page. */
  const EmailTail: string := "</strong>.</p>\n\t\t\t\t<p>Please take the necessary actions to renew or update your document before the expiration date to avoid any disruptions.</p>\n\t\t\t\t<a href=\"#\" class=\"button\">Manage Your Documents</a>\n\t\t\t\t<p class=\"footer\">If you have any questions, feel free to contact our support team.</p>\n\t\t\t</div>\n\t\t</body>\n\t\t</html>\n\t"

  /** The reminder e-mail's fixed text. */
  const ReminderEmail: Frame := Frame(EmailHead, EmailStyle, EmailOpening, EmailBeforeName, EmailBeforeDate, EmailTail)

  /** The reminder e-mail: the frame above, filled with the three arguments. */
  function EmailTemplate(userName: string, documentName: string, expirationDate: string): string
  {
    Fill(ReminderEmail, userName, documentName, expirationDate)
  }

  const SmsLead: string := "Reminder: Your document '"
  const SmsMiddle: string := "' is expiring on "
  const SmsTail: string := ". Please take action to renew it."

  /**
   * The reminder SMS: the document name quoted after the lead text, then the
   * expiration date, then the closing request; 75 fixed characters in all.
   */
  function SMSMessage(documentName: string, expirationDate: string): (r: string)
    ensures |r| == 75 + |documentName| + |expirationDate|
    ensures r[..25] == SmsLead
    ensures r[25..25 + |documentName|] == documentName
    ensures r[25 + |documentName|..42 + |documentName|] == SmsMiddle
    ensures r[42 + |documentName|..42 + |documentName| + |expirationDate|] == expirationDate
    ensures r[|r| - 33..] == SmsTail
  {
    var r := SmsLead + documentName + SmsMiddle + expirationDate + SmsTail;
    assert r[..25] == SmsLead;
    assert r[25..25 + |documentName|] == documentName;
    assert r[25 + |documentName|..42 + |documentName|] == SmsMiddle;
    assert r[42 + |documentName|..42 + |documentName| + |expirationDate|] == expirationDate;
    assert r[|r| - 33..] == SmsTail;
    r
  }

  /** Knowing how long the document name was, the SMS gives back both of its arguments. */
  function SmsFields(sms: string, documentNameLength: nat): (r: (string, string))
    requires 75 + documentNameLength <= |sms|
  {
    (sms[25..25 + documentNameLength], sms[42 + documentNameLength..|sms| - 33])
  }

  lemma SmsRoundTrip(documentName: string, expirationDate: string)
    ensures SmsFields(SMSMessage(documentName, expirationDate), |documentName|) == (documentName, expirationDate)
  {
  }
}
