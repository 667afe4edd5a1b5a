/**
 * The request-handling logic of the gRPC data service
 * (app/dataservice/server.py): the stream name of a genre, the validation
 * and flat field map of EnqueueBlog (the encoder whose output the worker
 * decodes), the argument guards of BulkDelete and BulkUpdate, and the rule
 * that a zero count from a stored procedure means NOT_FOUND. Redis, MySQL,
 * uuid generation and the clock are outside the model: what they produce is
 * passed in as parameters.
 */
module DataService {
  import opened Wrappers
  import Worker

  /** The gRPC status codes the handlers abort with. */
  datatype StatusCode = InvalidArgument | NotFound

  /** A handler either replies or aborts the call with a status and a message. */
  datatype Reply<T> = Ok(value: T) | Abort(code: StatusCode, details: string)

  /** BlogCreateRequest; proto3 strings are "" when not set. */
  datatype BlogCreateRequest = BlogCreateRequest(
    clientMsgId: string,
    author: string,
    content: string,
    genre: string,
    location: string,
    createdAtIso: string)

  /** What EnqueueBlog appends: the target stream and the entry's fields. */
  datatype StreamEntry = StreamEntry(stream: string, fields: map<string, string>)

  /** BulkUpdateRequest. */
  datatype BulkUpdateRequest = BulkUpdateRequest(ids: seq<int>, genre: string, location: string, content: string)

  /** The arguments of the bulk-update procedure call, next to its count. */
  datatype BulkUpdateCall = BulkUpdateCall(ids: seq<int>, genre: string, location: string, content: string)

  /** The first row a stored procedure returns, as column name to value; None for no row. */
  type ProcRow = Option<map<string, int>>

  const RequiredMessage: string := "author, content, genre, location are required"
  const IdsRequiredMessage: string := "ids required"
  const NoFieldsMessage: string := "no fields to update"
  const NotFoundMessage: string := "Not found"

  /** The six keys of an enqueued entry. */
  const EntryKeys: set<string> := {"client_msg_id", "author", "content", "genre", "location", "created_at_iso"}

  /**
   * The characters Python's `str.isspace` accepts, which `str.strip()`
   * removes: the ASCII whitespace, the information separators 0x1C-0x1F,
   * NEL, NO-BREAK SPACE and the Unicode space and line separators.
   */
  predicate IsSpace(c: char)
  {
    || ('\t' <= c <= '\r') || ('\U{1C}' <= c <= ' ')
    || c == '\U{85}' || c == '\U{A0}' || c == '\U{1680}'
    || ('\U{2000}' <= c <= '\U{200A}') || c == '\U{2028}' || c == '\U{2029}'
    || c == '\U{202F}' || c == '\U{205F}' || c == '\U{3000}'
  }

  predicate AllSpace(s: string)
  {
    forall i :: 0 <= i < |s| ==> IsSpace(s[i])
  }

  /** How many whitespace characters `s` starts with. */
  function LeadingSpace(s: string): (n: nat)
    ensures n <= |s|
    ensures forall i :: 0 <= i < n ==> IsSpace(s[i])
    ensures n < |s| ==> !IsSpace(s[n])
  {
    if s == [] || !IsSpace(s[0]) then 0 else 1 + LeadingSpace(s[1..])
  }

  /** How many whitespace characters `s` ends with. */
  function TrailingSpace(s: string): (n: nat)
    ensures n <= |s|
    ensures forall i :: |s| - n <= i < |s| ==> IsSpace(s[i])
    ensures n < |s| ==> !IsSpace(s[|s| - n - 1])
  {
    if s == [] || !IsSpace(s[|s| - 1]) then 0 else 1 + TrailingSpace(s[..|s| - 1])
  }

  /** The trailing whitespace of a suffix of `s` is trailing whitespace of `s`. */
  lemma TrailingSpaceOfSuffix(s: string, a: nat)
    requires a <= |s|
    ensures var n := TrailingSpace(s[a..]);
      && a + n <= |s|
      && (forall i :: |s| - n <= i < |s| ==> IsSpace(s[i]))
      && (a + n < |s| ==> !IsSpace(s[|s| - n - 1]))
  {
    var rest := s[a..];
    var n := TrailingSpace(rest);
    forall i | |s| - n <= i < |s| ensures IsSpace(s[i]) {
      assert s[i] == rest[i - a];
    }
  }

  /**
   * `str.strip()`: the slice of `s` left once the whitespace at both ends
   * is cut off. What remains is empty or begins and ends with a
   * non-whitespace character.
   */
  function Strip(s: string): (t: string)
    ensures exists a, b ::
      (&& 0 <= a <= b <= |s| && t == s[a..b]
       && (forall i :: 0 <= i < a ==> IsSpace(s[i]))
       && (forall i :: b <= i < |s| ==> IsSpace(s[i])))
    ensures t == [] || (!IsSpace(t[0]) && !IsSpace(t[|t| - 1]))
  {
    var a := LeadingSpace(s);
    TrailingSpaceOfSuffix(s, a);
    var b := |s| - TrailingSpace(s[a..]);
    assert a < b ==> s[a..b][0] == s[a] && s[a..b][b - a - 1] == s[b - 1];
    s[a..b]
  }

  /** Stripping leaves nothing exactly when the text is all whitespace. */
  lemma StripEmptyIffAllSpace(s: string)
    ensures Strip(s) == [] <==> AllSpace(s)
  {
    var t := Strip(s);
    var a, b :| 0 <= a <= b <= |s| && t == s[a..b]
      && (forall i :: 0 <= i < a ==> IsSpace(s[i])) && (forall i :: b <= i < |s| ==> IsSpace(s[i]));
    if !AllSpace(s) {
      var k :| 0 <= k < |s| && !IsSpace(s[k]);
      assert a <= k < b;
    }
  }

  /** Stripping twice is stripping once. */
  lemma StripIdempotent(s: string)
    ensures Strip(Strip(s)) == Strip(s)
  {
    var t := Strip(s);
    if t != [] {
      assert LeadingSpace(t) == 0;
      assert TrailingSpace(t) == 0;
      assert t[0..|t|] == t;
    }
  }

  /** `_stream_for_genre`: the fixed prefix followed by the genre. */
  function StreamForGenre(genre: string): (s: string)
    ensures |s| == |Worker.StreamPrefix| + |genre|
    ensures s[..|Worker.StreamPrefix|] == "blogs:genre:" && s[|Worker.StreamPrefix|..] == genre
  {
    "blogs:genre:" + genre
  }

  /** The producer and the worker name a genre's stream alike. */
  lemma StreamNamesAgree(genre: string)
    ensures StreamForGenre(genre) == Worker.StreamForGenre(genre)
  {
  }

  /** Distinct genres are enqueued on distinct streams. */
  lemma StreamForGenreInjective(g1: string, g2: string)
    requires StreamForGenre(g1) == StreamForGenre(g2)
    ensures g1 == g2
  {
    StreamNamesAgree(g1);
    StreamNamesAgree(g2);
    Worker.StreamForGenreInjective(g1, g2);
  }

  /** Python's `x or default` on a string. */
  function OrDefault(x: string, default: string): string
  {
    if x == "" then default else x
  }

  /** The six-field map EnqueueBlog writes to the stream. */
  function EntryFields(clientMsgId: string, author: string, content: string,
                       genre: string, location: string, createdAtIso: string): (f: map<string, string>)
    ensures f.Keys == EntryKeys
    ensures f["client_msg_id"] == clientMsgId && f["author"] == author && f["content"] == content
    ensures f["genre"] == genre && f["location"] == location && f["created_at_iso"] == createdAtIso
  {
    map[
      "client_msg_id" := clientMsgId,
      "author" := author,
      "content" := content,
      "genre" := genre,
      "location" := location,
      "created_at_iso" := createdAtIso]
  }

  /**
   * EnqueueBlog up to the Redis calls. `generatedId` stands for the fresh
   * uuid used when the request has no client id, and `nowIso` for the
   * current time used when it has no creation time. The call is refused
   * with INVALID_ARGUMENT exactly when the genre, location or author is
   * blank (empty or only whitespace) or the content is empty; otherwise
   * the entry has exactly six fields, the trimmed text and the content as
   * sent, and goes to the stream of the trimmed genre.
   */
  function EnqueueBlog(req: BlogCreateRequest, generatedId: string, nowIso: string): (r: Reply<StreamEntry>)
    ensures r.Abort? <==> AllSpace(req.genre) || AllSpace(req.location) || AllSpace(req.author) || req.content == ""
    ensures r.Abort? ==> r.code == InvalidArgument && r.details == RequiredMessage
    ensures r.Ok? ==>
      var f := r.value.fields;
      && f.Keys == EntryKeys
      && f["client_msg_id"] == (if req.clientMsgId == "" then generatedId else req.clientMsgId)
      && f["author"] == Strip(req.author) && f["author"] != ""
      && f["genre"] == Strip(req.genre) && f["genre"] != ""
      && f["location"] == Strip(req.location) && f["location"] != ""
      && f["content"] == req.content && f["content"] != ""
      && f["created_at_iso"] == (if req.createdAtIso == "" then nowIso else req.createdAtIso)
      && r.value.stream == StreamForGenre(f["genre"])
  {
    StripEmptyIffAllSpace(req.genre);
    StripEmptyIffAllSpace(req.location);
    StripEmptyIffAllSpace(req.author);
    var clientMsgId := OrDefault(req.clientMsgId, generatedId);
    var genre := Strip(req.genre);
    var location := Strip(req.location);
    var author := Strip(req.author);
    var content := req.content;
    var createdAtIso := OrDefault(req.createdAtIso, nowIso);
    if genre == "" || location == "" || author == "" || content == "" then
      Abort(InvalidArgument, RequiredMessage)
    else
      var fields := EntryFields(clientMsgId, author, content, genre, location, createdAtIso);
      Ok(StreamEntry(StreamForGenre(genre), fields))
  }

  /**
   * `int(row[column]) if row and column in row else 0`: the count a stored
   * procedure reports, read as 0 when it returned no row or no such column.
   */
  function CountColumn(row: ProcRow, column: string): (n: int)
    ensures n != 0 ==> row.Some? && column in row.value && row.value[column] == n
    ensures row.Some? && column in row.value ==> n == row.value[column]
  {
    if row.Some? && column in row.value then row.value[column] else 0
  }

  /** The NOT_FOUND rule shared by UpdateBlog and DeleteBlog. */
  function FoundOrAbort(count: int): (r: Reply<bool>)
    ensures r.Abort? <==> count == 0
    ensures r.Abort? ==> r.code == NotFound && r.details == NotFoundMessage
    ensures r.Ok? ==> r.value
  {
    if count == 0 then Abort(NotFound, NotFoundMessage) else Ok(true)
  }

  /**
   * UpdateBlog after its procedure call, given the row the call returned:
   * it succeeds exactly when that row reports a non-zero `updated` count.
   */
  function UpdateBlog(procRow: ProcRow): (r: Reply<bool>)
    ensures r.Ok? <==> procRow.Some? && "updated" in procRow.value && procRow.value["updated"] != 0
    ensures r.Abort? ==> r.code == NotFound
    ensures r.Ok? ==> r.value
  {
    FoundOrAbort(CountColumn(procRow, "updated"))
  }

  /**
   * DeleteBlog after its procedure call: it succeeds exactly when the row
   * returned reports a non-zero `deleted` count.
   */
  function DeleteBlog(procRow: ProcRow): (r: Reply<bool>)
    ensures r.Ok? <==> procRow.Some? && "deleted" in procRow.value && procRow.value["deleted"] != 0
    ensures r.Abort? ==> r.code == NotFound
    ensures r.Ok? ==> r.value
  {
    FoundOrAbort(CountColumn(procRow, "deleted"))
  }

  /**
   * BulkDelete: refused with INVALID_ARGUMENT when no id is given; otherwise
   * the procedure's `deleted` count is returned as it is, zero included.
   */
  function BulkDelete(ids: seq<int>, procRow: ProcRow): (r: Reply<int>)
    ensures r.Abort? <==> ids == []
    ensures r.Abort? ==> r.code == InvalidArgument && r.details == IdsRequiredMessage
    ensures r.Ok? ==> r.value == CountColumn(procRow, "deleted")
  {
    if ids == [] then Abort(InvalidArgument, IdsRequiredMessage)
    else Ok(CountColumn(procRow, "deleted"))
  }

  /**
   * BulkUpdate: refused when no id is given, and otherwise when none of
   * genre, location and content is set (the id check comes first). When it
   * goes ahead, the procedure receives the ids and the three fields with
   * unset ones as "", and its `updated` count is returned.
   */
  function BulkUpdate(req: BulkUpdateRequest, procRow: ProcRow): (r: Reply<(BulkUpdateCall, int)>)
    ensures r.Abort? <==> req.ids == [] || (req.genre == "" && req.location == "" && req.content == "")
    ensures r.Abort? ==> r.code == InvalidArgument
    ensures req.ids == [] ==> r.Abort? && r.details == IdsRequiredMessage
    ensures req.ids != [] && r.Abort? ==> r.details == NoFieldsMessage
    ensures r.Ok? ==>
      && r.value.0 == BulkUpdateCall(req.ids, req.genre, req.location, req.content)
      && r.value.1 == CountColumn(procRow, "updated")
  {
    if req.ids == [] then Abort(InvalidArgument, IdsRequiredMessage)
    else if !(req.genre != "" || req.location != "" || req.content != "") then Abort(InvalidArgument, NoFieldsMessage)
    else
      var call := BulkUpdateCall(req.ids, OrDefault(req.genre, ""), OrDefault(req.location, ""), OrDefault(req.content, ""));
      Ok((call, CountColumn(procRow, "updated")))
  }
}
