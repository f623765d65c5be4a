/** The `pet-created-webhook` function: one request in, one response out, and
    at most one row appended to `webhook_logs`. The auth service, the request
    body and the insert are abstract inputs; the clock is a parameter. */
module PetCreatedWebhook {
  import opened Optional

  type Header = (string, string)

  /** The CORS headers every response carries. */
  const CorsHeaders: seq<Header> := [
    ("Access-Control-Allow-Origin", "*"),
    ("Access-Control-Allow-Headers", "authorization, x-client-info, apikey, content-type")
  ]

  /** The headers of a JSON response: the CORS headers, then the content type. */
  const JsonHeaders: seq<Header> := CorsHeaders + [("Content-Type", "application/json")]

  const EventType := "pet.created"
  const SuccessMessage := "Pet created webhook processed successfully"

  /** The pet fields the caller posts (`PetData`). */
  datatype PetData = PetData(
    id: string,
    userId: string,
    name: string,
    species: string,
    breed: string,
    age: real,
    weight: real,
    color: string,
    gender: string,
    imageUrl: Option<string>,
    notes: Option<string>,
    createdAt: string)

  /** The authenticated user as the auth service reports it. */
  datatype AuthUser = AuthUser(id: string, email: Option<string>)

  /** The pet as the envelope carries it: every posted field but `user_id`. */
  datatype EnvelopePet = EnvelopePet(
    id: string,
    name: string,
    species: string,
    breed: string,
    age: real,
    weight: real,
    color: string,
    gender: string,
    imageUrl: Option<string>,
    notes: Option<string>,
    createdAt: string)

  datatype EnvelopeUser = EnvelopeUser(id: string, email: Option<string>)

  /** `webhookPayload`. */
  datatype Envelope = Envelope(event: string, timestamp: string, user: EnvelopeUser, pet: EnvelopePet)

  /** The JSON body of a response; `NoBody` is `null`. */
  datatype Body =
    | NoBody
    | ErrorOnly(error: string)
    | Processed(success: bool, message: string, data: Envelope)
    | Crashed(success: bool, error: string)

  datatype Response = Response(status: int, headers: seq<Header>, body: Body)

  /** A row of `webhook_logs` as the handler inserts it. */
  datatype LogRow = LogRow(eventType: string, userId: string, payload: Envelope, status: string)

  /** Where, if anywhere, an exception interrupts the handler, and its message. */
  datatype Step = CreatingClient | GettingUser | ReadingBody
  datatype Fault = NoFault | Throws(step: Step, message: string)

  /** What one invocation produces: the response and the row it leaves in
      `webhook_logs`, if any. */
  datatype Outcome = Outcome(response: Response, logRow: Option<LogRow>)

  /** The envelope's pet: the posted fields, copied unchanged, minus `user_id`. */
  function EnvelopePetOf(pet: PetData): EnvelopePet {
    EnvelopePet(pet.id, pet.name, pet.species, pet.breed, pet.age, pet.weight,
                pet.color, pet.gender, pet.imageUrl, pet.notes, pet.createdAt)
  }

  /** `webhookPayload` for the authenticated user and the posted pet: a
      `pet.created` event about that user, carrying the clock reading and the
      posted pet, from which the pet is recovered with its owner id. */
  function MakeEnvelope(user: AuthUser, pet: PetData, timestamp: string): (r: Envelope)
    ensures r.event == "pet.created" && r.timestamp == timestamp
    ensures r.user.id == user.id && r.user.email == user.email
    ensures PetDataOf(r.pet, pet.userId) == pet
  {
    Envelope(EventType, timestamp, EnvelopeUser(user.id, user.email), EnvelopePetOf(pet))
  }

  /** The posted pet, rebuilt from the envelope and the owner id it omits. */
  function PetDataOf(p: EnvelopePet, userId: string): PetData {
    PetData(p.id, userId, p.name, p.species, p.breed, p.age, p.weight, p.color,
            p.gender, p.imageUrl, p.notes, p.createdAt)
  }

  /** The envelope loses nothing of the posted pet but its `user_id`, and the
      caller's `user_id` has no say in it: the envelope's user is the
      authenticated one. */
  lemma EnvelopeKeepsPetDropsOwner(user: AuthUser, pet: PetData, timestamp: string, otherOwner: string)
    ensures PetDataOf(MakeEnvelope(user, pet, timestamp).pet, pet.userId) == pet
    ensures MakeEnvelope(user, pet.(userId := otherOwner), timestamp) == MakeEnvelope(user, pet, timestamp)
    ensures MakeEnvelope(user, pet, timestamp).event == "pet.created"
    ensures MakeEnvelope(user, pet, timestamp).user.id == user.id
  {
  }

  /** The request handler. `httpMethod` is the request method, `user` what the
      auth service answers, `pet` the parsed body, `timestamp` the clock reading
      the envelope records, `fault` an exception and where it is thrown, and
      `logInsertFails` whether the insert reports an error, in which case no
      row is stored but the response is the same. */
  function Handle(httpMethod: string, user: Option<AuthUser>, pet: PetData, timestamp: string,
                  fault: Fault, logInsertFails: bool): (r: Outcome)
    ensures |CorsHeaders| <= |r.response.headers| && r.response.headers[..|CorsHeaders|] == CorsHeaders
    ensures httpMethod == "OPTIONS" ==> r == Outcome(Response(200, CorsHeaders, NoBody), None)
    ensures r.response.status == 200 && r.response.body.Processed? ==>
      && user.Some?
      && r.response == Response(200, JsonHeaders, Processed(true, SuccessMessage, r.response.body.data))
    ensures r.logRow.Some? <==> r.response.status == 200 && r.response.body.Processed? && !logInsertFails
    ensures r.logRow.Some? ==>
      r.logRow.value == LogRow("pet.created", user.value.id, r.response.body.data, "success")
    ensures r.response.status == 401 <==>
      httpMethod != "OPTIONS" && user.None? && (fault.NoFault? || fault.step == ReadingBody)
    ensures r.response.status == 401 ==>
      r.response == Response(401, JsonHeaders, ErrorOnly("Unauthorized")) && r.logRow.None?
    ensures r.response.status == 500 <==>
      httpMethod != "OPTIONS" && fault.Throws? && (fault.step != ReadingBody || user.Some?)
    ensures r.response.status == 500 ==>
      r.response.body == Crashed(false, fault.message) && r.response.headers == JsonHeaders
      && r.logRow.None?
  {
    if httpMethod == "OPTIONS" then
      Outcome(Response(200, CorsHeaders, NoBody), None)
    else if fault.Throws? && fault.step != ReadingBody then
      Outcome(Response(500, JsonHeaders, Crashed(false, fault.message)), None)
    else if user.None? then
      Outcome(Response(401, JsonHeaders, ErrorOnly("Unauthorized")), None)
    else if fault.Throws? then
      Outcome(Response(500, JsonHeaders, Crashed(false, fault.message)), None)
    else
      var envelope := MakeEnvelope(user.value, pet, timestamp);
      var row := LogRow(EventType, user.value.id, envelope, "success");
      // An insert error is logged to the console and otherwise ignored.
      Outcome(Response(200, JsonHeaders, Processed(true, SuccessMessage, envelope)),
              if logInsertFails then None else Some(row))
  }

  /** Whether the insert fails makes no difference to what the handler
      answers; a failed insert only leaves no row behind. */
  lemma LogFailureIsInvisible(httpMethod: string, user: Option<AuthUser>, pet: PetData,
                              timestamp: string, fault: Fault)
    ensures Handle(httpMethod, user, pet, timestamp, fault, true).response
      == Handle(httpMethod, user, pet, timestamp, fault, false).response
    ensures Handle(httpMethod, user, pet, timestamp, fault, true).logRow == None
  {
  }

  /** A successful invocation answers with the envelope built from the
      authenticated user and the posted pet, and, unless the insert fails,
      logs that same envelope. */
  lemma SuccessCarriesEnvelope(httpMethod: string, user: AuthUser, pet: PetData, timestamp: string,
                               logInsertFails: bool)
    requires httpMethod != "OPTIONS"
    ensures var r := Handle(httpMethod, Some(user), pet, timestamp, NoFault, logInsertFails);
      && r.response.status == 200
      && r.response.body.Processed?
      && r.response.body.data == MakeEnvelope(user, pet, timestamp)
      && r.logRow == (if logInsertFails then None
                      else Some(LogRow("pet.created", user.id, MakeEnvelope(user, pet, timestamp), "success")))
  {
  }

  /** No row is ever written with a status other than "success". */
  lemma OnlySuccessRows(httpMethod: string, user: Option<AuthUser>, pet: PetData, timestamp: string,
                        fault: Fault, logInsertFails: bool)
    ensures var r := Handle(httpMethod, user, pet, timestamp, fault, logInsertFails);
      r.logRow.Some? ==> r.logRow.value.status == "success" && r.logRow.value.eventType == "pet.created"
  {
  }
}
