/**
 * The producer and the consumer side by side: the flat field map that
 * EnqueueBlog (app/dataservice/server.py) appends to a genre stream is the
 * map the worker's `_add_to_buffer` (app/worker/worker.py) decodes. Nothing
 * is lost or renamed between the two.
 */
module Pipeline {
  import opened Wrappers
  import Blogs
  import Worker
  import DataService

  /**
   * Enqueue a request EnqueueBlog accepts (non-blank genre, location and
   * author, non-empty content), then decode the entry: the row the worker
   * builds carries the trimmed author, genre and location, the content as
   * sent and the client id the producer chose; it is buffered under
   * (trimmed genre, trimmed location), its genre is non-empty, and the
   * stream it was read from is the one the worker derives from that genre.
   * Its creation time is the producer's timestamp when `parseIso` accepts
   * it and `now` otherwise.
   */
  lemma EnqueueThenDecode(req: DataService.BlogCreateRequest, generatedId: string, nowIso: string,
                          now: Blogs.Time, parseIso: string -> Option<Blogs.Time>)
    requires !DataService.AllSpace(req.genre) && !DataService.AllSpace(req.location)
    requires !DataService.AllSpace(req.author) && req.content != ""
    ensures var entry := DataService.EnqueueBlog(req, generatedId, nowIso).value;
      var row := Worker.DecodeRow(entry.fields, now, parseIso);
      var createdAtIso := if req.createdAtIso == "" then nowIso else req.createdAtIso;
      && row.author == DataService.Strip(req.author)
      && row.content == req.content
      && row.genre == DataService.Strip(req.genre) && row.genre != ""
      && row.location == DataService.Strip(req.location) && row.location != ""
      && row.clientMsgId == Some(if req.clientMsgId == "" then generatedId else req.clientMsgId)
      && Worker.KeyOf(row) == (DataService.Strip(req.genre), DataService.Strip(req.location))
      && entry.stream == Worker.StreamForGenre(row.genre)
      && row.createdAt == parseIso(createdAtIso).GetOr(now)
      && row.updatedAt == now
  {
    var entry := DataService.EnqueueBlog(req, generatedId, nowIso).value;
    assert "client_msg_id" in DataService.EntryKeys && "created_at_iso" in DataService.EntryKeys;
    assert "author" in DataService.EntryKeys && "content" in DataService.EntryKeys;
    assert "genre" in DataService.EntryKeys && "location" in DataService.EntryKeys;
    DataService.StreamNamesAgree(entry.fields["genre"]);
  }

  /**
   * Every request EnqueueBlog accepts lands in a buffer whose key has a
   * non-blank genre and location: the worker never sees a key made of
   * empty or space-padded text from this producer.
   */
  lemma AcceptedKeysAreTrimmed(req: DataService.BlogCreateRequest, generatedId: string, nowIso: string,
                               now: Blogs.Time, parseIso: string -> Option<Blogs.Time>)
    requires !DataService.AllSpace(req.genre) && !DataService.AllSpace(req.location)
    requires !DataService.AllSpace(req.author) && req.content != ""
    ensures var row := Worker.DecodeRow(DataService.EnqueueBlog(req, generatedId, nowIso).value.fields, now, parseIso);
      && DataService.Strip(row.genre) == row.genre
      && DataService.Strip(row.location) == row.location
      && !DataService.AllSpace(row.genre) && !DataService.AllSpace(row.location)
  {
    EnqueueThenDecode(req, generatedId, nowIso, now, parseIso);
    DataService.StripIdempotent(req.genre);
    DataService.StripIdempotent(req.location);
    DataService.StripEmptyIffAllSpace(DataService.Strip(req.genre));
    DataService.StripEmptyIffAllSpace(DataService.Strip(req.location));
  }
}
