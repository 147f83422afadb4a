/** Request headers as the gateway reads them twice: live, and from the copy a trace keeps. */
module Headers {
  import opened Prelude

  /** Header lines in the order received, names in lower case; a name may stand on several lines. */
  type Lines = seq<(string, string)>

  const ROUTE := "x-ctrlrtn-route"
  const SESSION := "x-ctrlrtn-session"
  const REDACTED := "[redacted]"

  const CREDENTIALS := {"authorization", "proxy-authorization", "x-api-key", "api-key", "cookie", "set-cookie"}

  /** A live lookup finds the first line of the name. */
  function First(lines: Lines, name: string): Option<string> {
    if lines == [] then None
    else if lines[0].0 == name then Some(lines[0].1)
    else First(lines[1..], name)
  }

  function Last(lines: Lines, name: string): Option<string> {
    if lines == [] then None
    else
      var line := lines[|lines| - 1];
      if line.0 == name then Some(line.1) else Last(lines[..|lines| - 1], name)
  }

  /** The copy a trace keeps: a dictionary filled line by line, credentials replaced. */
  function Recordable(lines: Lines): map<string, string> {
    if lines == [] then map[]
    else
      var line := lines[|lines| - 1];
      Recordable(lines[..|lines| - 1])[line.0 := if line.0 in CREDENTIALS then REDACTED else line.1]
  }

  function Lookup(copy: map<string, string>, name: string): Option<string> {
    if name in copy then Some(copy[name]) else None
  }

  /** In the copy the last line of a name wins. */
  lemma {:induction false} CopyKeepsLast(lines: Lines, name: string)
    requires name !in CREDENTIALS
    ensures Lookup(Recordable(lines), name) == Last(lines, name)
  {
    if lines != [] { CopyKeepsLast(lines[..|lines| - 1], name); }
  }

  /** The name stands on at most one line. */
  predicate Once(lines: Lines, name: string) {
    forall i, j :: 0 <= i < |lines| && 0 <= j < |lines| && lines[i].0 == name && lines[j].0 == name ==> i == j
  }

  lemma {:induction false} FirstAt(lines: Lines, name: string)
    ensures First(lines, name).None? ==> forall i :: 0 <= i < |lines| ==> lines[i].0 != name
    ensures First(lines, name).Some? ==>
              exists i :: 0 <= i < |lines| && lines[i].0 == name && lines[i].1 == First(lines, name).value
  {
    if lines != [] {
      FirstAt(lines[1..], name);
      if lines[0].0 != name && First(lines, name).Some? {
        var i :| 0 <= i < |lines[1..]| && lines[1..][i].0 == name && lines[1..][i].1 == First(lines, name).value;
        assert lines[i + 1] == lines[1..][i];
      }
    }
  }

  lemma {:induction false} LastAt(lines: Lines, name: string)
    ensures Last(lines, name).None? ==> forall i :: 0 <= i < |lines| ==> lines[i].0 != name
    ensures Last(lines, name).Some? ==>
              exists i :: 0 <= i < |lines| && lines[i].0 == name && lines[i].1 == Last(lines, name).value
  {
    if lines != [] && lines[|lines| - 1].0 != name {
      LastAt(lines[..|lines| - 1], name);
    }
  }

  lemma OnceReadsAlike(lines: Lines, name: string)
    requires Once(lines, name)
    ensures First(lines, name) == Last(lines, name)
  {
    FirstAt(lines, name);
    LastAt(lines, name);
  }

  // ----- what is read from them ----------------------------------------------------------------

  /** An empty value counts as absent. */
  function Present(value: Option<string>): Option<string> { if value == Some("") then None else value }

  /** The use-case key: the explicit tag, else the digest of the body's structure when it has one. */
  function UseCaseKey(tag: Option<string>, digest: Option<string>): Option<string> {
    if Present(tag).Some? then Some("tag:" + tag.value)
    else if digest.Some? then Some("fp:" + digest.value)
    else None
  }

  function CheckedUseCase(lines: Lines, digest: Option<string>): Option<string> {
    UseCaseKey(First(lines, ROUTE), digest)
  }

  function CheckedSession(lines: Lines): Option<string> { Present(First(lines, SESSION)) }

  function RecordedUseCase(lines: Lines, digest: Option<string>): Option<string> {
    UseCaseKey(Lookup(Recordable(lines), ROUTE), digest)
  }

  function RecordedSession(lines: Lines): Option<string> { Present(Lookup(Recordable(lines), SESSION)) }

  /** The two readings agree exactly when the first and the last line say the same, empty lines aside;
      so a request that repeats neither header is recorded as it was checked. */
  lemma ReadingsAgreeIff(lines: Lines, digest: Option<string>)
    ensures RecordedUseCase(lines, digest) == CheckedUseCase(lines, digest)
            <==> Present(First(lines, ROUTE)) == Present(Last(lines, ROUTE))
    ensures RecordedSession(lines) == CheckedSession(lines)
            <==> Present(First(lines, SESSION)) == Present(Last(lines, SESSION))
    ensures Once(lines, ROUTE) ==> RecordedUseCase(lines, digest) == CheckedUseCase(lines, digest)
    ensures Once(lines, SESSION) ==> RecordedSession(lines) == CheckedSession(lines)
  {
    CopyKeepsLast(lines, ROUTE);
    CopyKeepsLast(lines, SESSION);
    if Once(lines, ROUTE) { OnceReadsAlike(lines, ROUTE); }
    if Once(lines, SESSION) { OnceReadsAlike(lines, SESSION); }
    KeysDiffer(First(lines, ROUTE), Last(lines, ROUTE), digest);
  }

  lemma KeysDiffer(a: Option<string>, b: Option<string>, digest: Option<string>)
    ensures UseCaseKey(a, digest) == UseCaseKey(b, digest) <==> Present(a) == Present(b)
  {
    var p, q := Present(a), Present(b);
    if p.Some? { assert ("tag:" + p.value)[0] == 't' && ("tag:" + p.value)[4..] == p.value; }
    if q.Some? { assert ("tag:" + q.value)[0] == 't' && ("tag:" + q.value)[4..] == q.value; }
    if digest.Some? { assert ("fp:" + digest.value)[0] == 'f'; }
  }

  lemma KeyIsNotEmpty(lines: Lines, digest: Option<string>)
    ensures RecordedUseCase(lines, digest) != Some("")
  {}
}
