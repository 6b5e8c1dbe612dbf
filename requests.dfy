/**
 * Inspection of request payloads: the prediction mode, and the validation
 * and sanitization the contact and dataset-sharing handlers perform before
 * an email is sent and an event is stored. JSON objects are modelled as
 * maps from keys to values; form values are strings.
 */
module Requests {
  import opened Seqs
  import opened Text
  import opened Events

  // ---------------------------------------------------------------------
  // detect_prediction_mode
  // ---------------------------------------------------------------------

  datatype Mode = BiologicalContext | NonBiologicalContext

  const BiologicalParams: seq<string> := ["environmental_pH", "temperature", "protein_corona"]

  /**
   * `detect_prediction_mode(data)`: biological context exactly when one of
   * the three biological parameters is a key of the payload, whatever its
   * value (a JSON `null` counts).
   */
  function DetectPredictionMode<V>(data: map<string, V>): (m: Mode)
    ensures m == BiologicalContext <==>
      ("environmental_pH" in data || "temperature" in data || "protein_corona" in data)
  {
    var hasBiologicalParams := exists k :: 0 <= k < |BiologicalParams| && BiologicalParams[k] in data;
    var hasPh := "environmental_pH" in data;
    var hasTemperature := "temperature" in data;
    var hasProteinCorona := "protein_corona" in data;
    if hasBiologicalParams || hasPh || hasTemperature || hasProteinCorona then BiologicalContext
    else NonBiologicalContext
  }

  /** Only the keys matter: payloads with the same keys get the same mode, whatever their values. */
  lemma ModeDependsOnlyOnKeys<V>(a: map<string, V>, b: map<string, V>)
    requires a.Keys == b.Keys
    ensures DetectPredictionMode(a) == DetectPredictionMode(b)
  {
  }

  // ---------------------------------------------------------------------
  // Required fields
  // ---------------------------------------------------------------------

  /** `data.get(key, '')` */
  function Get(data: map<string, string>, key: string): string {
    if key in data then data[key] else ""
  }

  /**
   * A required field passes the handlers' test `not data.get(field) or
   * not data[field].strip()`: it is given and not all whitespace (see
   * PresentIffStripped for the same test in terms of Strip).
   */
  predicate Present(data: map<string, string>, field: string) {
    Get(data, field) != "" && HasNonSpace(Get(data, field))
  }

  predicate HasNonSpace(s: string) {
    exists k :: 0 <= k < |s| && !IsSpace(s[k])
  }

  /** The presence test of the handlers: the value is truthy and so is its stripped form. */
  lemma PresentIffStripped(data: map<string, string>, field: string)
    ensures Present(data, field) <==> Get(data, field) != "" && Strip(Get(data, field)) != ""
  {
    StripEmptyIffAllSpace(Get(data, field));
  }

  /**
   * The index of the first required field that fails the test, as the
   * handlers' `for field in required_fields` loop finds it; `|fields|` when
   * every field is present.
   */
  function FirstMissingIndex(data: map<string, string>, fields: seq<string>): (k: nat)
    ensures k <= |fields|
    ensures forall m :: 0 <= m < k ==> Present(data, fields[m])
    ensures k < |fields| ==> !Present(data, fields[k])
  {
    if fields == [] then 0
    else if !Present(data, fields[0]) then 0
    else 1 + FirstMissingIndex(data, fields[1..])
  }

  /** Every field of the list passes the test. */
  predicate AllPresent(data: map<string, string>, fields: seq<string>) {
    forall m :: 0 <= m < |fields| ==> Present(data, fields[m])
  }

  /** The search finds no failing field exactly when all of them pass. */
  lemma FirstMissingIndexAll(data: map<string, string>, fields: seq<string>)
    ensures FirstMissingIndex(data, fields) == |fields| <==> AllPresent(data, fields)
  {
  }

  /** For three fields, passing all of them is passing each. */
  lemma AllPresentOfThree(data: map<string, string>, a: string, b: string, c: string)
    ensures AllPresent(data, [a, b, c]) <==> Present(data, a) && Present(data, b) && Present(data, c)
  {
    assert [a, b, c][0] == a && [a, b, c][1] == b && [a, b, c][2] == c;
  }

  /** The loop over a three-field list, unrolled. */
  lemma FirstMissingOfThree(data: map<string, string>, a: string, b: string, c: string)
    ensures FirstMissingIndex(data, [a, b, c]) ==
      if !Present(data, a) then 0
      else if !Present(data, b) then 1
      else if !Present(data, c) then 2
      else 3
  {
    assert [c][1..] == [];
    assert FirstMissingIndex(data, [c]) == if !Present(data, c) then 0 else 1;
    assert [b, c][1..] == [c];
    assert FirstMissingIndex(data, [b, c]) == if !Present(data, b) then 0 else 1 + FirstMissingIndex(data, [c]);
    assert [a, b, c][1..] == [b, c];
  }

  // ---------------------------------------------------------------------
  // Contact form and dataset sharing request
  // ---------------------------------------------------------------------

  /** Why a handler answers with status 400. */
  datatype Rejection = NoData | Missing(field: string) | InvalidEmail

  datatype Result<T> = Ok(value: T) | Err(error: Rejection)

  /** The reply of the contact and dataset handlers, apart from its wording. */
  datatype Reply = Rejected(reason: Rejection) | SendFailed | Sent

  /** The HTTP status of a reply: 400 for a rejected payload, 200 otherwise (also when sending failed). */
  function StatusCode(r: Reply): (code: int)
    ensures code == 400 <==> r.Rejected?
    ensures code == 200 <==> !r.Rejected?
  {
    if r.Rejected? then 400 else 200
  }

  const ContactRequired: seq<string> := ["name", "email", "message"]
  const DatasetRequired: seq<string> := ["name", "email", "dataset_description"]

  /** Stored lengths of the free-text fields. */
  const MessageLimit: nat := 500
  const DescriptionLimit: nat := 1000

  /**
   * The contact event stored for an accepted form: the sanitized fields and
   * the sanitized message cut to its first MessageLimit characters.
   */
  predicate StoredContact(c: Contact, data: map<string, string>, now: string) {
    var message := Sanitize(Get(data, "message"));
    && c.timestamp == now
    && c.name == Sanitize(Get(data, "name"))
    && c.email == Sanitize(Get(data, "email"))
    && c.profession == Sanitize(Get(data, "profession"))
    && c.phone == Sanitize(Get(data, "phone"))
    && |c.message| == Min(|message|, MessageLimit)
    && c.message == message[..|c.message|]
  }

  /**
   * The checks of `contact_us` up to the email send, and the event it
   * stores when the send succeeds: required fields in order, then the email
   * format of the sanitized address.
   */
  function ValidateContact(data: map<string, string>, now: string): (r: Result<Contact>)
    ensures r == Err(NoData) <==> |data| == 0
    ensures r.Err? && r.error.Missing? ==> r.error.field in ContactRequired && !Present(data, r.error.field)
    ensures r == Err(Missing("email")) ==> Present(data, "name")
    ensures r == Err(Missing("message")) ==> Present(data, "name") && Present(data, "email")
    ensures r == Err(InvalidEmail) <==>
      && |data| > 0
      && AllPresent(data, ContactRequired)
      && !IsValidEmail(Sanitize(Get(data, "email")))
    ensures r.Ok? <==>
      && |data| > 0
      && AllPresent(data, ContactRequired)
      && IsValidEmail(Sanitize(Get(data, "email")))
    ensures r.Ok? ==> StoredContact(r.value, data, now)
  {
    if |data| == 0 then Err(NoData)
    else
      var k := FirstMissingIndex(data, ContactRequired);
      if k < |ContactRequired| then
        FirstMissingOfThree(data, "name", "email", "message");
        Err(Missing(ContactRequired[k]))
      else
        var name := Sanitize(Get(data, "name"));
        var email := Sanitize(Get(data, "email"));
        var profession := Sanitize(Get(data, "profession"));
        var phone := Sanitize(Get(data, "phone"));
        var message := Sanitize(Get(data, "message"));
        if !IsValidEmail(email) then Err(InvalidEmail)
        else
          PySlicePrefix(message, MessageLimit);
          Ok(Contact(now, name, email, profession, phone, PySlice(message, 0, MessageLimit)))
  }

  /**
   * The dataset event stored for an accepted request: the sanitized fields
   * and the sanitized description cut to its first DescriptionLimit characters.
   */
  predicate StoredDataset(d: DatasetShare, data: map<string, string>, now: string) {
    var description := Sanitize(Get(data, "dataset_description"));
    && d.timestamp == now
    && d.name == Sanitize(Get(data, "name"))
    && d.email == Sanitize(Get(data, "email"))
    && d.organization == Sanitize(Get(data, "organization"))
    && d.datasetSize == Sanitize(Get(data, "dataset_size"))
    && d.researchArea == Sanitize(Get(data, "research_area"))
    && |d.description| == Min(|description|, DescriptionLimit)
    && d.description == description[..|d.description|]
  }

  /**
   * The checks of `share_dataset` up to the email send, and the event it
   * stores when the send succeeds.
   */
  function ValidateDataset(data: map<string, string>, now: string): (r: Result<DatasetShare>)
    ensures r == Err(NoData) <==> |data| == 0
    ensures r.Err? && r.error.Missing? ==> r.error.field in DatasetRequired && !Present(data, r.error.field)
    ensures r == Err(Missing("email")) ==> Present(data, "name")
    ensures r == Err(Missing("dataset_description")) ==> Present(data, "name") && Present(data, "email")
    ensures r == Err(InvalidEmail) <==>
      && |data| > 0
      && AllPresent(data, DatasetRequired)
      && !IsValidEmail(Sanitize(Get(data, "email")))
    ensures r.Ok? <==>
      && |data| > 0
      && AllPresent(data, DatasetRequired)
      && IsValidEmail(Sanitize(Get(data, "email")))
    ensures r.Ok? ==> StoredDataset(r.value, data, now)
  {
    if |data| == 0 then Err(NoData)
    else
      var k := FirstMissingIndex(data, DatasetRequired);
      if k < |DatasetRequired| then
        FirstMissingOfThree(data, "name", "email", "dataset_description");
        Err(Missing(DatasetRequired[k]))
      else
        var name := Sanitize(Get(data, "name"));
        var email := Sanitize(Get(data, "email"));
        var organization := Sanitize(Get(data, "organization"));
        var description := Sanitize(Get(data, "dataset_description"));
        var datasetSize := Sanitize(Get(data, "dataset_size"));
        var researchArea := Sanitize(Get(data, "research_area"));
        if !IsValidEmail(email) then Err(InvalidEmail)
        else
          PySlicePrefix(description, DescriptionLimit);
          Ok(DatasetShare(now, name, email, organization, PySlice(description, 0, DescriptionLimit),
                          datasetSize, researchArea))
  }

  /**
   * Every text field of an accepted contact is free of the dangerous
   * characters; all but the message are also free of edge whitespace (the
   * message is cut after sanitizing, so it may end in a space).
   */
  lemma ContactFieldsClean(data: map<string, string>, now: string)
    requires ValidateContact(data, now).Ok?
    ensures var c := ValidateContact(data, now).value;
      && NoDangerous(c.name) && NoDangerous(c.email) && NoDangerous(c.profession)
      && NoDangerous(c.phone) && NoDangerous(c.message)
      && NoEdgeSpace(c.name) && NoEdgeSpace(c.email) && NoEdgeSpace(c.profession)
      && NoEdgeSpace(c.phone) && IsValidEmail(c.email) && MatchesAddress(c.email)
  {
    var r := ValidateContact(data, now);
    var c := r.value;
    assert StoredContact(c, data, now);
    var message := Sanitize(Get(data, "message"));
    PrefixKeepsClean(message, |c.message|);
    SanitizedEmailMatchesWhole(c.email);
  }
}
