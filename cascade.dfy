/** The admission decision that pod.go and daemonset.go each write out in full: type-assert,
    stamp TypeMeta, encode, flush, scan with the list-returning kubesec v2 client, check the
    reply's shape, pretty-print it, compare the score with the minimum. Only the constants
    differ between the two files; they are gathered in a Profile. */
module Cascade {
  import opened Text
  import opened Kube
  import opened Buffers

  /** The constants one validator file hard-codes. */
  datatype Profile = Profile(
    goType: GoType,     // the type Validate asserts
    kind: string,       // the Kind it stamps
    apiVersion: string, // the APIVersion it stamps
    phrase: string)     // the words before the minimum in its denial message

  /** The validator's collaborators, answering as they would for this request. */
  datatype ListEnv = ListEnv(
    encode: Snapshot -> Result<Bytes>,            // the YAML serializer
    flush: WriteOutcome,                          // the buffer's answer to the flush
    scan: Bytes -> Result<seq<ScanResult>>,       // kubesec v2 ScanDefinition
    marshal: seq<ScanResult> -> Result<string>)   // json.MarshalIndent of the reply

  /** A Validate return: the result and the error. */
  datatype Reply = Reply(result: ValidatorResult, err: Option<string>)

  const AllowReply := Reply(Allow, None)

  function StampedMeta(p: Profile): TypeMeta {
    TypeMeta(p.kind, p.apiVersion)
  }

  /** The object as the serializer sees it: TypeMeta replaced, everything else as it came. */
  function Stamp(s: Snapshot, p: Profile): (t: Snapshot)
    ensures t.typeMeta == StampedMeta(p)
    ensures t.goType == s.goType && t.name == s.name && t.body == s.body
  {
    s.(typeMeta := StampedMeta(p))
  }

  /** The denial text: "<name> score is <score>, <phrase> is <minimum>\nScan Result:\n<report>".
      It is grouped around the two numbers, each followed by the delimiter that ends it (',' and
      '\n'), so that DenialMessageInjective can read each number back at its own position;
      DenialMessageFlat gives the same text written left to right. */
  function DenialMessage(name: string, score: int, minScore: int, phrase: string, report: string): string {
    name + " score is " + (IntToString(score) + "," +
      (" " + phrase + " is " + (IntToString(minScore) + "\n" + ("Scan Result:\n" + report))))
  }

  /** Every step succeeded: the type matched, encoding and flushing worked, the scanner gave
      exactly one result with an empty error, and pretty-printing worked. */
  predicate ScanCompleted(p: Profile, s: Snapshot, env: ListEnv) {
    && s.goType == p.goType
    && env.encode(Stamp(s, p)).Ok?
    && FlushError(env.flush, env.encode(Stamp(s, p)).value) == None
    && env.scan(env.encode(Stamp(s, p)).value).Ok?
    && |env.scan(env.encode(Stamp(s, p)).value).value| == 1
    && env.scan(env.encode(Stamp(s, p)).value).value[0].error == ""
    && env.marshal(env.scan(env.encode(Stamp(s, p)).value).value).Ok?
  }

  /** The scanner's reply on a completed scan. */
  function Results(p: Profile, s: Snapshot, env: ListEnv): (rs: seq<ScanResult>)
    requires ScanCompleted(p, s, env)
    ensures |rs| == 1 && rs[0].error == ""
  {
    env.scan(env.encode(Stamp(s, p)).value).value
  }

  /** The pretty-printed reply on a completed scan. */
  function Report(p: Profile, s: Snapshot, env: ListEnv): string
    requires ScanCompleted(p, s, env)
  {
    env.marshal(Results(p, s, env)).value
  }

  /** The only way to be refused: the scan completed and its score is below the minimum. */
  predicate Denies(p: Profile, minScore: int, s: Snapshot, env: ListEnv) {
    ScanCompleted(p, s, env) && Results(p, s, env)[0].score < minScore
  }

  /** The decision Validate returns for an object that came in as `s`. */
  function Decide(p: Profile, minScore: int, s: Snapshot, env: ListEnv): (r: Reply)
    ensures r.err == None
    ensures !r.result.valid <==> Denies(p, minScore, s, env)
    ensures r.result.valid ==> r.result.message == ""
    ensures !r.result.valid ==>
              r.result.message == DenialMessage(s.name, Results(p, s, env)[0].score, minScore, p.phrase, Report(p, s, env))
  {
    if s.goType != p.goType then AllowReply
    else match env.encode(Stamp(s, p))
      case Err(_) => AllowReply
      case Ok(doc) =>
        if FlushError(env.flush, doc).Some? then AllowReply
        else match env.scan(doc)
          case Err(_) => AllowReply
          case Ok(results) =>
            if |results| != 1 then AllowReply
            else if results[0].error != "" then AllowReply
            else match env.marshal(results)
              case Err(_) => AllowReply
              case Ok(report) =>
                if results[0].score < minScore then
                  Reply(ValidatorResult(false,
                    DenialMessage(s.name, results[0].score, minScore, p.phrase, report)), None)
                else AllowReply
  }

  /** Validate as the source runs it on the caller's object. */
  method Validate(p: Profile, minScore: int, obj: Object, env: ListEnv)
    returns (result: ValidatorResult, err: Option<string>)
    modifies obj
    ensures obj.typeMeta == if obj.goType == p.goType then StampedMeta(p) else old(obj.typeMeta)
    ensures Reply(result, err) == Decide(p, minScore, old(obj.View()), env)
  {
    if obj.goType != p.goType {
      return Allow, None;
    }
    var buffer := new ByteBuffer();
    var writer := new BufferedWriter(buffer);
    obj.typeMeta := StampedMeta(p);
    var encoded := env.encode(obj.View());
    if encoded.Err? {
      return Allow, None;
    }
    assert obj.View() == Stamp(old(obj.View()), p);
    writer.Write(encoded.value);
    assert writer.pending == encoded.value;
    var flushErr := writer.Flush(env.flush);
    if flushErr.Some? {
      return Allow, None;
    }
    assert buffer.data == encoded.value;
    var scanned := env.scan(buffer.data);
    if scanned.Err? {
      return Allow, None;
    }
    var results := scanned.value;
    if |results| != 1 {
      return Allow, None;
    }
    if results[0].error != "" {
      return Allow, None;
    }
    var report := env.marshal(results);
    if report.Err? {
      return Allow, None;
    }
    if results[0].score < minScore {
      return ValidatorResult(false, DenialMessage(obj.name, results[0].score, minScore, p.phrase, report.value)), None;
    }
    return Allow, None;
  }

  // ---- The fail-open branches, one lemma each. "The collaborator is not called" is stated
  // as: the reply is the same whatever that collaborator would have answered.

  /** A wrong type is accepted before any collaborator is consulted. */
  lemma TypeMismatchAllows(p: Profile, minScore: int, s: Snapshot, env: ListEnv, other: ListEnv)
    requires s.goType != p.goType
    ensures Decide(p, minScore, s, env) == AllowReply
    ensures Decide(p, minScore, s, env) == Decide(p, minScore, s, other)
  {
  }

  /** An encoding failure is accepted; the flush, scanner and printer are not consulted. */
  lemma EncodeFailureAllows(p: Profile, minScore: int, s: Snapshot, env: ListEnv,
                            flush: WriteOutcome, scan: Bytes -> Result<seq<ScanResult>>,
                            marshal: seq<ScanResult> -> Result<string>)
    requires env.encode(Stamp(s, p)).Err?
    ensures Decide(p, minScore, s, env) == AllowReply
    ensures Decide(p, minScore, s, env) ==
            Decide(p, minScore, s, env.(flush := flush, scan := scan, marshal := marshal))
  {
  }

  /** A flush failure is accepted; the scanner and printer are not consulted. */
  lemma FlushFailureAllows(p: Profile, minScore: int, s: Snapshot, env: ListEnv,
                           scan: Bytes -> Result<seq<ScanResult>>,
                           marshal: seq<ScanResult> -> Result<string>)
    requires s.goType == p.goType && env.encode(Stamp(s, p)).Ok?
    requires FlushError(env.flush, env.encode(Stamp(s, p)).value).Some?
    ensures Decide(p, minScore, s, env) == AllowReply
    ensures Decide(p, minScore, s, env) == Decide(p, minScore, s, env.(scan := scan, marshal := marshal))
  {
  }

  /** On a successful flush the scanner is handed exactly the serializer's output. */
  lemma ScannerSeesEncodedDocument(p: Profile, minScore: int, s: Snapshot, env: ListEnv,
                                   doc: Bytes, answer: Result<seq<ScanResult>>)
    requires s.goType == p.goType && env.encode(Stamp(s, p)) == Ok(doc)
    requires FlushError(env.flush, doc) == None
    requires env.scan(doc) == answer
    ensures Decide(p, minScore, s, env) ==
            Decide(p, minScore, s, env.(scan := (b: Bytes) => if b == doc then answer else Err("unused")))
  {
  }

  /** A transport error, a reply that is not exactly one result, and a result carrying an
      error are all accepted, whatever the minimum, and the printer is not consulted. */
  lemma ScanFailureAllows(p: Profile, minScore: int, otherMin: int, s: Snapshot, env: ListEnv,
                          marshal: seq<ScanResult> -> Result<string>)
    requires s.goType == p.goType && env.encode(Stamp(s, p)).Ok?
    requires FlushError(env.flush, env.encode(Stamp(s, p)).value) == None
    requires var answer := env.scan(env.encode(Stamp(s, p)).value);
             answer.Err? || |answer.value| != 1 || answer.value[0].error != ""
    ensures Decide(p, minScore, s, env) == AllowReply
    ensures Decide(p, minScore, s, env) == Decide(p, otherMin, s, env.(marshal := marshal))
  {
  }

  /** A pretty-printing failure is accepted even when the score is below the minimum. */
  lemma PrettyPrintFailureAllows(p: Profile, minScore: int, s: Snapshot, env: ListEnv)
    requires s.goType == p.goType && env.encode(Stamp(s, p)).Ok?
    requires FlushError(env.flush, env.encode(Stamp(s, p)).value) == None
    requires var answer := env.scan(env.encode(Stamp(s, p)).value);
             answer.Ok? && |answer.value| == 1 && answer.value[0].error == "" && env.marshal(answer.value).Err?
    ensures Decide(p, minScore, s, env) == AllowReply
  {
  }

  // ---- The comparison.

  /** Once the scan completes, the object is admitted exactly when its score reaches the
      minimum: the comparison is strict, so a score equal to the minimum is admitted. */
  lemma ThresholdIsStrict(p: Profile, minScore: int, s: Snapshot, env: ListEnv)
    requires ScanCompleted(p, s, env)
    ensures Decide(p, minScore, s, env).result.valid <==> Results(p, s, env)[0].score >= minScore
  {
  }

  /** Raising the minimum never turns a refusal into an admission. */
  lemma DenialMonotone(p: Profile, minScore: int, higher: int, s: Snapshot, env: ListEnv)
    requires minScore <= higher
    requires !Decide(p, minScore, s, env).result.valid
    ensures !Decide(p, higher, s, env).result.valid
  {
  }

  /** The TypeMeta the object arrives with makes no difference: it is overwritten first. */
  lemma IncomingTypeMetaIrrelevant(p: Profile, minScore: int, s: Snapshot, t: TypeMeta, env: ListEnv)
    ensures Decide(p, minScore, s, env) == Decide(p, minScore, s.(typeMeta := t), env)
  {
    assert Stamp(s, p) == Stamp(s.(typeMeta := t), p);
  }

  /** The denial message can be read back: given the object's name and the phrase, it fixes
      the score, the minimum and the report it was built from. */
  lemma DenialMessageInjective(name: string, phrase: string,
                               score: int, minScore: int, report: string,
                               score': int, minScore': int, report': string)
    ensures DenialMessage(name, score, minScore, phrase, report) ==
            DenialMessage(name, score', minScore', phrase, report')
            <==> score == score' && minScore == minScore' && report == report'
  {
    if DenialMessage(name, score, minScore, phrase, report) ==
       DenialMessage(name, score', minScore', phrase, report') {
      var rest, rest' := "Scan Result:\n" + report, "Scan Result:\n" + report';
      var tail := " " + phrase + " is " + (IntToString(minScore) + "\n" + rest);
      var tail' := " " + phrase + " is " + (IntToString(minScore') + "\n" + rest');
      IntFieldReadBack(name + " score is ", score, score', ',', tail, tail');
      IntFieldReadBack(" " + phrase + " is ", minScore, minScore', '\n', rest, rest');
      assert report == rest[13..] && report' == rest'[13..];
    }
  }

  /** The denial message starts with the object's name and ends with the report. */
  lemma DenialMessageFrame(name: string, score: int, minScore: int, phrase: string, report: string)
    ensures var m := DenialMessage(name, score, minScore, phrase, report);
            |m| > |name| + |report| && name <= m && report == m[|m| - |report|..]
  {
  }

  /** The same text, written left to right. The clause ", <phrase> is " is a parameter so that
      each per-kind DenialText lemma can pass it as one literal string. */
  lemma DenialMessageFlat(name: string, score: int, minScore: int, phrase: string, report: string,
                          clause: string)
    requires clause == ", " + phrase + " is "
    ensures DenialMessage(name, score, minScore, phrase, report) ==
            name + " score is " + IntToString(score) + clause + IntToString(minScore)
            + "\nScan Result:\n" + report
  {
    Reassociate(name + " score is ", IntToString(score), phrase, IntToString(minScore),
                "Scan Result:\n" + report, clause);
  }

  /** Regrouping the concatenation, for any two number texts; it is stated over plain strings
      so that the facts known about IntToString do not enter the proof. */
  lemma Reassociate(head: string, a: string, phrase: string, b: string, rest: string,
                    clause: string)
    requires clause == ", " + phrase + " is "
    ensures head + (a + "," + (" " + phrase + " is " + (b + "\n" + rest))) ==
            head + a + clause + b + "\n" + rest
  {
  }
}
