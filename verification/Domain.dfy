// JSON values as the program handles them: a dictionary is an ordered list of members.
module Json {

  // Python integers are unbounded; floats are the reals that binary64 can hold.
  datatype Number = Int(n: int) | Float(x: real)

  datatype Member = Member(key: string, value: Value)

  datatype Value =
    | Null
    | Bool(b: bool)
    | Num(num: Number)
    | Str(s: string)
    | Arr(items: seq<Value>)
    | Obj(members: seq<Member>)
}

// What is frozen, cited, mapped and executed. SHA-256 and HMAC are free constructors: equal
// digests have equal preimages. Values that reach a row have been through the freeze boundary,
// so equality of canonical bytes is equality of values here (see module Freeze).
module Domain {
  import opened Wrappers
  import opened Json

  newtype Byte = b: int | 0 <= b < 256

  datatype TokenDigest = Hmac(token: string)

  datatype Digest =
    | InvocationSha(invocation: Invocation)
    | BindingSha(document: BindingDocument)
    | EntrySha(entry: CatalogEntry)
    | ProfileSha(profile: RunnerProfile)
    | RevisionSha(body: RevisionBody)
    | ScriptSha(bytes: seq<Byte>)
    | OtherText(text: string)

  datatype Precondition = Precondition(name: string, expected: string)

  datatype Passage = Passage(locator: string, text: string)

  datatype Verification = Verification(verifier: string, verifiedAt: string, applicability: string)

  // A runbook document without its content hash: exactly what the hash covers.
  datatype RevisionBody = RevisionBody(
    runbookId: string,
    revision: string,
    action: string,
    target: string,
    preconditions: seq<Precondition>,
    passages: seq<Passage>,
    verification: Verification
  )

  datatype Revision = Revision(body: RevisionBody, contentHash: Digest)

  datatype Citation = Citation(runbookId: string, revision: string, contentHash: Digest, locator: string)

  datatype Evidence = Evidence(
    citation: Citation,
    passage: Passage,
    action: string,
    target: string,
    preconditions: seq<Precondition>,
    verifier: string
  )

  datatype Invocation = Invocation(
    action: string,
    target: string,
    arguments: Value,
    preconditions: seq<Value>,
    revisionHash: Digest
  )

  datatype CatalogKey = CatalogKey(
    runbookId: string,
    revision: string,
    contentHash: Digest,
    action: string,
    target: string
  )

  datatype CatalogEntry = CatalogEntry(
    key: CatalogKey,
    scriptId: string,
    scriptPath: string,
    scriptSha: Digest
  )

  datatype RunnerProfile = RunnerProfile(
    profileId: string,
    executable: string,
    executableSha: Digest,
    argv: seq<string>,
    workingDirectory: string,
    envAllowlist: seq<string>,
    timeoutSeconds: int,
    outputLimit: int
  )

  datatype Catalog = Catalog(entries: map<CatalogKey, CatalogEntry>, profiles: map<string, RunnerProfile>)

  datatype BindingTemplate = BindingTemplate(
    runbookId: string,
    revision: string,
    contentHash: Digest,
    scriptId: string,
    scriptPath: string,
    scriptSha: Digest,
    entryDigest: Digest,
    profileId: string,
    profileDigest: Digest
  ) {
    function Finalize(proposalId: string, invocationDigest: Digest): BindingDocument {
      BindingDocument(proposalId, invocationDigest, this)
    }
  }

  datatype BindingDocument = BindingDocument(
    proposalId: string,
    invocationDigest: Digest,
    template: BindingTemplate
  )

  // The canonical member order puts "expected" before "name".
  function PreconditionValue(p: Precondition): Value {
    Obj([Member("expected", Str(p.expected)), Member("name", Str(p.name))])
  }
}
