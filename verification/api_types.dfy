/** Types and constants of the Hackaday.io API client header: the error
    enumeration, the project record and the fixed host, path template and
    size bound. */
module ApiTypes {

  /** The target's signed 32-bit `int`. */
  type Int32 = x: int | -0x8000_0000 <= x < 0x8000_0000

  const Host: string := "api.hackaday.io"

  /** The two literal pieces of the path template `/v1/projects/%d?api_key=%s`. */
  const ProjectsPrefix: string := "/v1/projects/"
  const ApiKeyQuery: string := "?api_key="

  /** Size of the stack buffer the path is formatted into, terminator included. */
  const RequestBufferSize: nat := 75

  /** Largest body, in bytes, whose declared length is accepted. */
  const MaxSizeReturnJson: nat := 2000

  /** Outcome of a call; the constructors are listed in the order of their codes. */
  datatype ApiError = None | NoConnection | ResponseToLong | NoResponse | Empty | NoJson

  /** The integer value of each enumerator. */
  function Code(e: ApiError): (c: nat)
    ensures c <= 5
    ensures c == 0 <==> e == None
  {
    match e
    case None => 0
    case NoConnection => 1
    case ResponseToLong => 2
    case NoResponse => 3
    case Empty => 4
    case NoJson => 5
  }

  /** The enumerator with a given value: the inverse of `Code`. */
  function FromCode(c: nat): (e: ApiError)
    requires c <= 5
    ensures Code(e) == c
  {
    if c == 0 then None
    else if c == 1 then NoConnection
    else if c == 2 then ResponseToLong
    else if c == 3 then NoResponse
    else if c == 4 then Empty
    else NoJson
  }

  /** Every code is one of 0..5, and decoding it gives the enumerator back;
      so no two enumerators share a value. */
  lemma CodeRoundTrip(e: ApiError)
    ensures Code(e) <= 5 && FromCode(Code(e)) == e
  {
  }

  lemma CodeInjective(a: ApiError, b: ApiError)
    ensures Code(a) == Code(b) <==> a == b
  {
    CodeRoundTrip(a);
    CodeRoundTrip(b);
  }

  /** C truthiness of an enumerator value: `if (response)`. */
  predicate Truthy(e: ApiError)
  {
    Code(e) != 0
  }

  /** Because `None` is the only zero enumerator, a truthy error is a failure. */
  lemma TruthyMeansFailure(e: ApiError)
    ensures Truthy(e) <==> e != None
  {
  }

  /** The project record returned by a fetch: the error plus nineteen data
      fields. Strings are held as values; `tagsCount` is only the size of
      the tag array, not the tags. */
  datatype ProjectRecord = ProjectRecord(
    apiError: ApiError,
    id: int,
    url: string,
    ownerId: int,
    name: string,
    summary: string,
    description: string,
    imageUrl: string,
    views: int,
    comments: int,
    followers: int,
    skulls: int,
    logs: int,
    details: int,
    instruction: int,
    components: int,
    images: int,
    created: int,
    updated: int,
    tagsCount: nat)

  /** A record that carries only an error; every data field is zero or empty. */
  function BlankRecord(e: ApiError): (r: ProjectRecord)
  {
    ProjectRecord(e, 0, "", 0, "", "", "", "", 0, 0, 0, 0, 0, 0, 0, 0, 0, 0, 0, 0)
  }

  /** True when no data field carries anything. */
  predicate HasNoData(r: ProjectRecord)
  {
    && r.id == 0 && r.ownerId == 0 && r.views == 0 && r.comments == 0
    && r.followers == 0 && r.skulls == 0 && r.logs == 0 && r.details == 0
    && r.instruction == 0 && r.components == 0 && r.images == 0
    && r.created == 0 && r.updated == 0 && r.tagsCount == 0
    && r.url == "" && r.name == "" && r.summary == "" && r.description == ""
    && r.imageUrl == ""
  }

  /** A record is blank exactly when it has no data; the error is then all it says. */
  lemma BlankRecordIff(r: ProjectRecord)
    ensures r == BlankRecord(r.apiError) <==> HasNoData(r)
  {
  }
}
