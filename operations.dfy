/** `VaultVersionedKeyValueOperations`: the interface the template implements.
    Its one piece of logic is the default `read(path)`. */
module KeyValueOperations {
  import opened Wrappers
  import opened Text
  import opened VaultSupport
  import opened KeyValueTemplate

  /** `read(path)`: reads the most recent version, that is `read(path,
      Version.unversioned())`, so the URL carries no version query and the
      response is handled exactly as for a versioned read. */
  method ReadLatest(t: Template, path: string, outcome: HttpOutcome, unwrap: string -> VaultResponse,
                    parse: string -> Option<Instant>) returns (request: Request, result: ReadResult)
    requires HasText(path)
    ensures request == Get(t.ReadPath(path, Unversioned))
    ensures request == Get(t.DataPath(path))
    ensures '?' !in t.mount && '?' !in path ==> '?' !in request.path
    ensures result == Template.ReadOutcome(path, outcome, unwrap, parse)
  {
    request, result := t.Read(path, Unversioned, outcome, unwrap, parse);
    if '?' !in t.mount && '?' !in path {
      t.QueryMarksVersion(path, Unversioned);
    }
  }
}
