/** The REST handler of pages/api/status/getStatus.ts: look up
    `req.query.id` in a hardcoded array and answer 200 with the status or
    404 with `{message: 'not found'}`. */
module StatusApi {
  import opened ArrayMethods

  // ---------------------------------------------------------------------
  // Data
  // ---------------------------------------------------------------------

  /** `new Date(year, monthIndex, day)`: a local calendar date, kept as the
      three numbers it is built from. */
  datatype Date = LocalDate(year: int, monthIndex: int, day: int)

  datatype Status = Status(id: string, body: string, author: string, createdAt: Date)

  /** The hardcoded statuses. */
  const Statuses: seq<Status> := [
    Status("2", "inviting coworkers", "jack", LocalDate(2022, 1, 10)),
    Status("1", "just setting up my app", "jack", LocalDate(2022, 0, 10))
  ]

  const NotFoundMessage: string := "not found"

  /** A value of a parsed query string: one string, or an array of them
      when the key is repeated. */
  datatype QueryValue = Single(value: string) | Multiple(values: seq<string>)

  /** The request, reduced to its parsed query string. */
  datatype Request = Request(query: map<string, QueryValue>)

  /** A JSON response body: a status (`Success`) or `{message}` (`Failure`). */
  datatype Body = Success(status: Status) | Failure(message: string)

  /** The status code and body a request is answered with. */
  datatype Reply = Reply(code: int, body: Body)

  // ---------------------------------------------------------------------
  // The lookup
  // ---------------------------------------------------------------------

  /** `status.id === req.query.id`: strict equality with a string holds
      only when the query value is that very string; a missing key
      (`undefined`) or a repeated one (an array) never matches. */
  predicate IdMatches(req: Request, id: string): (r: bool)
    ensures "id" !in req.query ==> !r
    ensures "id" in req.query && req.query["id"].Multiple? ==> !r
    ensures r ==> req.query["id"].value == id
    ensures "id" in req.query && req.query["id"].Single? ==> (r <==> req.query["id"].value == id)
  {
    "id" in req.query && req.query["id"] == Single(id)
  }

  /** `statuses.find((status) => status.id === req.query.id)`. */
  function FindStatus(req: Request): (r: Option<Status>)
    ensures r.None? <==> forall i | 0 <= i < |Statuses| :: !IdMatches(req, Statuses[i].id)
    ensures r.Some? ==> exists i :: IsFirstMatch(Statuses, (s: Status) => IdMatches(req, s.id), i)
                                    && Statuses[i] == r.value
  {
    Find(Statuses, (s: Status) => IdMatches(req, s.id))
  }

  /** What the handler answers: 200 with the first status whose id is the
      query's `id`, or 404 with the not-found message when there is none. */
  function Respond(req: Request): (r: Reply)
    ensures r.code == 200 || r.code == 404
    ensures r.code == 200 <==> exists i | 0 <= i < |Statuses| :: IdMatches(req, Statuses[i].id)
    ensures r.code == 200 ==> r.body.Success? && r.body.status in Statuses
                              && IdMatches(req, r.body.status.id)
                              && FindStatus(req) == Some(r.body.status)
    ensures r.code == 404 <==> r.body == Failure(NotFoundMessage)
  {
    match FindStatus(req)
    case Some(status) => Reply(200, Success(status))
    case None => Reply(404, Failure(NotFoundMessage))
  }

  // ---------------------------------------------------------------------
  // The response object and the handler
  // ---------------------------------------------------------------------

  /** The part of Next.js's `NextApiResponse` the handler uses: the status
      code and the JSON body sent, if any. */
  class ApiResponse {
    var statusCode: int
    var sent: Option<Body>

    /** A fresh response: status 200 (Node's default), nothing sent. */
    constructor ()
      ensures statusCode == 200 && sent == None
    {
      statusCode := 200;
      sent := None;
    }

    /** `res.status(code)`. */
    method SetStatus(code: int)
      modifies this
      ensures statusCode == code && sent == old(sent)
    {
      statusCode := code;
    }

    /** `res.json(body)`. */
    method Json(body: Body)
      modifies this
      ensures sent == Some(body) && statusCode == old(statusCode)
    {
      sent := Some(body);
    }
  }

  /** `handler(req, res)`: sets exactly the reply `Respond` describes, and
      changes nothing but `res`. */
  method Handler(req: Request, res: ApiResponse)
    modifies res
    ensures res.statusCode == Respond(req).code
    ensures res.sent == Some(Respond(req).body)
  {
    var status := FindStatus(req);
    if status.Some? {
      res.SetStatus(200);
      res.Json(Success(status.value));
    } else {
      res.SetStatus(404);
      res.Json(Failure(NotFoundMessage));
    }
  }

  // ---------------------------------------------------------------------
  // Properties
  // ---------------------------------------------------------------------

  /** A missing `id`, or an `id` given more than once, is never equal to
      a stored id, so the answer is 404. */
  lemma NonStringIdNotFound(req: Request)
    requires "id" !in req.query || req.query["id"].Multiple?
    ensures Respond(req) == Reply(404, Failure(NotFoundMessage))
  {
  }

  /** On the hardcoded data, id '2' is 'inviting coworkers' by jack and id
      '3' is not found. */
  lemma RepliesOnFixedData()
    ensures Respond(Request(map["id" := Single("2")])).code == 200
    ensures Respond(Request(map["id" := Single("2")])).body.status.body == "inviting coworkers"
    ensures Respond(Request(map["id" := Single("2")])).body.status.author == "jack"
    ensures Respond(Request(map["id" := Single("3")])) == Reply(404, Failure("not found"))
  {
  }
}
