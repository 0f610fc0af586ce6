/**
 * The request `fetchSymplaEvents` prepares for the event-search API: the
 * choice of service path from the listing mode, and the JSON body that splices
 * that path and the organizer-id list into a fixed template.
 */
module SymplaRequest {
  import opened Wrappers
  import opened Text
  import opened Decimal
  import opened IntArray

  /** Service path for upcoming events, the default. */
  const SearchService: string := "/v4/search"
  /** Service path for past events. */
  const PastService: string := "/v4/events/past"
  /** The two fixed organizer identifiers. */
  const OrganizerIds: seq<int> := [3125215, 5478152]

  /**
   * A `fmt.Sprintf` format with two `%s` slots: the first inside a quoted JSON
   * string, the second a bare JSON value. `opening` runs up to the first slot,
   * `middle` from after the quote that closes it up to the second slot, and
   * `closing` after the second slot.
   */
  datatype Template = Template(opening: string, middle: string, closing: string)

  /** The request-body format of `fetchSymplaEvents`. */
  const BodyTemplate: Template := Template(
    "{\n        \"service\": \"",
    ",\n        \"params\": {\n            \"only\": \"name,images,location,start_date_formats,end_date_formats,url\",\n            \"organizer_id\": ",
    ",\n            \"sort\": \"date\",\n            \"order_by\": \"desc\",\n            \"limit\": \"6\",\n            \"page\": 1\n        },\n        \"ignoreLocation\": true\n    }")

  /** The service path the listing mode selects. */
  function ServicePath(eventType: string): string
  {
    if eventType == "past" then PastService else SearchService
  }

  /** The path is the past-events one exactly for "past"; every other mode gets the search path. */
  lemma {:induction false} ServicePathCases(eventType: string)
    ensures ServicePath(eventType) == PastService <==> eventType == "past"
    ensures ServicePath(eventType) == SearchService <==> eventType != "past"
  {
  }

  /** Starts from the search path and switches to the past-events path for "past". */
  method SelectService(eventType: string) returns (service: string)
    ensures service == PastService <==> eventType == "past"
    ensures service == SearchService <==> eventType != "past"
  {
    service := SearchService;
    if eventType == "past" {
      service := PastService;
    }
  }

  /** `fmt.Sprintf` of the format with `service` and `organizers` in its slots. */
  function Fill(t: Template, service: string, organizers: string): string
  {
    t.opening + service + "\"" + t.middle + organizers + t.closing
  }

  /** The body sent for a listing mode. */
  function RequestBody(eventType: string): string
  {
    Fill(BodyTemplate, ServicePath(eventType), IntArrayText(OrganizerIds))
  }

  /** The request-body assembly of `fetchSymplaEvents`, up to the HTTP call. */
  method BuildRequestBody(eventType: string) returns (body: string)
    ensures body == RequestBody(eventType)
  {
    var organizerIds := OrganizerIds;
    var service := SelectService(eventType);
    var organizers := IntArrayToString(organizerIds);
    body := Fill(BodyTemplate, service, organizers);
  }

  /**
   * Reads a filled format back into its two slot values: the text of `opening`,
   * the first value up to its closing quote, the rest of `middle`, and the
   * second value up to the text of `closing`, which ends the body.
   */
  function ReadBody(t: Template, body: string): (r: Option<(string, string)>)
    ensures r.Some? ==> '"' !in r.value.0 && body == Fill(t, r.value.0, r.value.1)
  {
    match Expect(t.opening, body)
    case None => None
    case Some(afterOpening) =>
      match ReadUntil(afterOpening, '"')
      case None => None
      case Some(field) =>
        match Expect(t.middle, field.1)
        case None => None
        case Some(afterMiddle) =>
          ReadValue(t, body, afterOpening, field.0, field.1, afterMiddle)
  }

  /** The last step of `ReadBody`: the second slot value is what precedes `closing`. */
  function ReadValue(t: Template, body: string, afterOpening: string, service: string, afterService: string, afterMiddle: string): (r: Option<(string, string)>)
    requires body == t.opening + afterOpening
    requires afterOpening == service + "\"" + afterService && '"' !in service
    requires afterService == t.middle + afterMiddle
    ensures r.Some? ==> r.value.0 == service && body == Fill(t, service, r.value.1)
  {
    if |t.closing| <= |afterMiddle| && afterMiddle[|afterMiddle| - |t.closing|..] == t.closing then
      var organizers := afterMiddle[..|afterMiddle| - |t.closing|];
      assert afterMiddle == organizers + t.closing;
      Some((service, organizers))
    else None
  }

  /** Filling the format and reading it back gives both slot values back. */
  lemma {:induction false} ReadFilled(t: Template, service: string, organizers: string)
    requires '"' !in service
    ensures ReadBody(t, Fill(t, service, organizers)) == Some((service, organizers))
  {
    var body := Fill(t, service, organizers);
    var afterMiddle := organizers + t.closing;
    var rest := t.middle + afterMiddle;
    assert body == t.opening + (service + ['"'] + rest);
    ReadUntilField(service, '"', rest);
    assert Expect(t.opening, body) == Some(service + ['"'] + rest);
    assert Expect(t.middle, rest) == Some(afterMiddle);
    assert afterMiddle[|afterMiddle| - |t.closing|..] == t.closing;
    assert afterMiddle[..|afterMiddle| - |t.closing|] == organizers;
  }

  /** The organizer list both modes carry, as the source writes it: "[3125215,5478152[]". */
  lemma {:induction false} OrganizerText()
    ensures IntArrayText(OrganizerIds) == "[" + "3125215" + "," + "5478152" + "[]"
  {
    FirstIdText();
    SecondIdText();
    var d := Decimals(OrganizerIds);
    assert d == [DecimalString(3125215), DecimalString(5478152)];
    assert Join(d, ',') == d[0] + [','] + d[1];
  }

  lemma {:induction false} FirstIdText()
    ensures DecimalString(3125215) == "3125215"
  {
    assert NatString(3) == "3";
    assert NatString(31) == "31";
    assert NatString(312) == "312";
    assert NatString(3125) == "3125";
    assert NatString(31252) == "31252";
    assert NatString(312521) == "312521";
  }

  lemma {:induction false} SecondIdText()
    ensures DecimalString(5478152) == "5478152"
  {
    assert NatString(5) == "5";
    assert NatString(54) == "54";
    assert NatString(547) == "547";
    assert NatString(5478) == "5478";
    assert NatString(54781) == "54781";
    assert NatString(547815) == "547815";
  }

  /**
   * What a body holds: the mode's service path, and for every mode the same
   * organizer text, the one `OrganizerText` spells out.
   */
  lemma {:induction false} RequestBodyFields(eventType: string)
    ensures ReadBody(BodyTemplate, RequestBody(eventType)) == Some((ServicePath(eventType), IntArrayText(OrganizerIds)))
  {
    ReadFilled(BodyTemplate, ServicePath(eventType), IntArrayText(OrganizerIds));
  }

  /**
   * Only the service path varies: two modes give the same body exactly when
   * both or neither of them is "past".
   */
  lemma {:induction false} RequestBodiesDifferOnlyInService(a: string, b: string)
    ensures RequestBody(a) == RequestBody(b) <==> (a == "past" <==> b == "past")
  {
    RequestBodyFields(a);
    RequestBodyFields(b);
  }
}
