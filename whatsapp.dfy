/** Sharing an invoice over WhatsApp: the message, the cleaned phone number
    and the wa.me link. Opening the link in a new window is not part of this
    model; `encodeURIComponent` is a parameter (`encode`). */
module WhatsApp {
  import opened Common
  import opened Text

  /** The fixed Telugu text before the link. */
  const Greeting: string := "మీ బండి రిపేర్ పూర్తయ్యింది దయచేసి. వివరాల కొరకు కింద ఉన్న PDFని చూడండి ధన్యవాదాలు."

  /** The message: the greeting, a blank line and the PDF link. */
  function Message(pdfUrl: string): (m: string)
    ensures |m| >= |pdfUrl| + 2 && m[|m| - |pdfUrl| - 2..] == "\n\n" + pdfUrl
    ensures |m| >= |Greeting| && m[..|Greeting|] == Greeting
  {
    Greeting + "\n\n" + pdfUrl
  }

  /** A character the regular expression `[^\d+]` does not remove. */
  predicate IsPhoneChar(c: char)
  {
    ('0' <= c <= '9') || c == '+'
  }

  /** `phoneNumber.replace(/[^\d+]/g, '')`. */
  function CleanPhone(phone: string): (r: string)
    ensures forall i :: 0 <= i < |r| ==> IsPhoneChar(r[i])
    ensures forall c :: IsPhoneChar(c) ==> multiset(r)[c] == multiset(phone)[c]
    ensures IsSubsequence(r, phone)
  {
    Filter(phone, IsPhoneChar)
  }

  /** Cleaning a cleaned number changes nothing. */
  lemma CleanPhoneIdempotent(phone: string)
    ensures CleanPhone(CleanPhone(phone)) == CleanPhone(phone)
  {
    FilterIdempotent(phone, IsPhoneChar);
  }

  /** A number made only of digits and '+' is left as it is. */
  lemma CleanPhoneKeepsCleanNumbers(phone: string)
    requires forall i :: 0 <= i < |phone| ==> IsPhoneChar(phone[i])
    ensures CleanPhone(phone) == phone
  {
    FilterKeepsAll(phone, IsPhoneChar);
  }

  const WaMe: string := "https://wa.me/"

  /** The link sendWhatsAppMessage opens. */
  function WhatsAppUrl(phone: string, pdfUrl: string, encode: string -> string): (u: string)
    ensures |u| >= |WaMe| + |CleanPhone(phone)| + 6 && u[..|WaMe|] == WaMe
    ensures u[|WaMe| + |CleanPhone(phone)|..] == "?text=" + encode(Message(pdfUrl))
  {
    WaMe + CleanPhone(phone) + "?text=" + encode(Message(pdfUrl))
  }

  /** The number the link addresses (the path up to the query) is the
      cleaned phone number. */
  lemma UrlAddressesTheCleanedPhone(phone: string, pdfUrl: string, encode: string -> string)
    ensures UpTo(WhatsAppUrl(phone, pdfUrl, encode)[|WaMe|..], '?') == CleanPhone(phone)
  {
    var p := CleanPhone(phone);
    var rest := "text=" + encode(Message(pdfUrl));
    assert WhatsAppUrl(phone, pdfUrl, encode)[|WaMe|..] == p + ['?'] + rest;
    assert !IsPhoneChar('?');
    IndexOfAfterPrefix(p, '?', rest);
    assert (p + ['?'] + rest)[..|p|] == p;
  }
}
