/**
 * Calendar event titles of the form "Client Name - Service Name"
 * (EventParserService::parseEventName), and the message a failed calendar
 * fetch reports.
 */
module EventParser {
  import opened Wrappers
  import opened Text

  const Separator := " - "

  datatype ParsedName = ParsedName(clientName: Option<string>, serviceName: string)

  /**
   * Split a title at the first " - ": the client is the trimmed text before
   * it, the service the trimmed text after it.  Without a separator there is
   * no client and the service is the title itself, untrimmed.
   */
  function ParseEventName(title: string): (p: ParsedName)
    ensures p.clientName.None? <==> !Contains(title, Separator)
    ensures p.clientName.None? ==> p.serviceName == title
    ensures p.clientName.Some? ==> IsTrimmed(p.clientName.value) && IsTrimmed(p.serviceName)
  {
    match IndexOf(title, Separator)
    case None => ParsedName(None, title)
    case Some(k) => ParsedName(Some(Trim(title[..k])), Trim(title[k + |Separator|..]))
  }

  /** The split is at the first occurrence of the separator, wherever later ones are. */
  lemma ParseSplitsAtFirst(title: string, k: nat)
    requires OccursAt(title, Separator, k)
    requires forall j :: 0 <= j < k ==> !OccursAt(title, Separator, j)
    ensures ParseEventName(title) == ParsedName(Some(Trim(title[..k])), Trim(title[k + 3..]))
  {
    FirstIndex(title, k);
    var service := title[k + |Separator|..];
    assert service == title[k + 3..];
    assert ParseEventName(title) == ParsedName(Some(Trim(title[..k])), Trim(service));
  }

  /** strpos finds the first separator. */
  lemma FirstIndex(title: string, k: nat)
    requires OccursAt(title, Separator, k)
    requires forall j :: 0 <= j < k ==> !OccursAt(title, Separator, j)
    ensures IndexOf(title, Separator) == Some(k) && |Separator| == 3
  {
  }

  /** In `client + " - " + rest` no separator starts inside `client`. */
  lemma {:induction false} NoEarlierSeparator(client: string, rest: string, j: nat)
    requires !Contains(client, Separator) && !EndsWith(client, " -")
    requires j < |client|
    ensures !OccursAt(client + Separator + rest, Separator, j)
  {
    var title := client + Separator + rest;
    var k := |client|;
    assert title[..k] == client;
    if j + 3 <= k {
      assert title[j..j + 3] == client[j..j + 3];
      assert !OccursAt(client, Separator, j);
    } else if j == k - 1 {
      assert title[j..j + 3][1] == title[k] == ' ';
    } else {
      assert j == k - 2;
      var w := title[j..j + 3];
      assert w[..2] == client[k - 2..];
      assert client[k - 2..] != " -";
      assert w[..2] != Separator[..2];
    }
  }

  /** The documented format round-trips: a trimmed client without the separator
      (and not ending in " -") and a trimmed service come back as they went in. */
  lemma ParseRoundTrip(client: string, service: string)
    requires IsTrimmed(client) && IsTrimmed(service)
    requires !Contains(client, Separator) && !EndsWith(client, " -")
    ensures ParseEventName(client + Separator + service) == ParsedName(Some(client), service)
  {
    var title := client + Separator + service;
    var k := |client|;
    assert title[k..k + 3] == Separator;
    forall j | 0 <= j < k
      ensures !OccursAt(title, Separator, j)
    {
      NoEarlierSeparator(client, service, j);
    }
    ParseSplitsAtFirst(title, k);
    assert title[..k] == client;
    assert title[k + 3..] == service;
    TrimOfTrimmed(client);
    TrimOfTrimmed(service);
  }

  /** Only the first separator splits: the service keeps any later " - ". */
  lemma ParseKeepsLaterSeparators()
    ensures ParseEventName("Ann - Hair Cut - 0171") == ParsedName(Some("Ann"), "Hair Cut - 0171")
  {
    assert "Ann"[0..3][0] == 'A';
    assert !OccursAt("Ann", Separator, 0);
    assert !Contains("Ann", Separator);
    assert IsTrimmed("Hair Cut - 0171");
    assert "Ann" + Separator + "Hair Cut - 0171" == "Ann - Hair Cut - 0171";
    ParseRoundTrip("Ann", "Hair Cut - 0171");
  }

  const SslHint := "SSL Certificate Error: Add GOOGLE_SSL_VERIFY=false to your .env file to bypass SSL verification in development."

  /** The error the Spatie fallback reports: certificate failures are replaced by a fixed hint. */
  function FetchErrorMessage(raw: string): (m: string)
    ensures m == SslHint <==> (Contains(raw, "SSL certificate problem") || Contains(raw, "cURL error 60") || raw == SslHint)
    ensures m != SslHint ==> m == raw
  {
    if Contains(raw, "SSL certificate problem") || Contains(raw, "cURL error 60") then SslHint else raw
  }
}
