/** pkg/webhook/deployment.go: the validator for extensions/v1beta1 Deployments, written
    against the older webhook and kubesec libraries. It differs from the other two files:
    Validate also returns a stop flag, the result of the buffer flush is discarded, and the
    scanner returns a single result, so there is no count check. */
module Deployment {
  import opened Text
  import opened Kube
  import opened Buffers
  import Cascade

  /** TypeMeta "Deployment"/"apps/v1" and the phrase "deployment minimum accepted score". */
  const Profile := Cascade.Profile(ExtensionsV1beta1Deployment, "Deployment", "apps/v1",
                                   "deployment minimum accepted score")

  /** deploymentValidator: the minimum score (the logger is not modelled). */
  datatype DeploymentValidator = DeploymentValidator(minScore: int)

  /** NewDeploymentWebhook: a webhook named "kubesec-deployment" decoding into
      extensions/v1beta1 Deployments and validating with the given minimum. */
  function NewDeploymentWebhook(minScore: int): (w: WebhookConfig<DeploymentValidator>)
    ensures w.id == "kubesec-deployment" && w.obj == ExtensionsV1beta1Deployment
    ensures w.validator.minScore == minScore
  {
    WebhookConfig("kubesec-deployment", ExtensionsV1beta1Deployment, DeploymentValidator(minScore))
  }

  /** The collaborators of the older libraries, answering as they would for this request. */
  datatype SingleEnv = SingleEnv(
    encode: Snapshot -> Result<Bytes>,        // the YAML serializer
    flush: WriteOutcome,                      // the buffer's answer to the flush
    scan: Bytes -> Result<ScanResult>,        // kubesec ScanDefinition, one result
    marshal: ScanResult -> Result<string>)    // json.MarshalIndent of the result

  /** A Validate return: the stop flag, the result and the error. */
  datatype Reply = Reply(stop: bool, result: ValidatorResult, err: Option<string>)

  const AllowReply := Reply(false, Allow, None)

  /** What the buffer holds when the scanner reads it: whatever the flush delivered, since
      its error is not looked at. That is a prefix of the document, all of it when the flush
      succeeds. */
  function Scanned(doc: Bytes, flush: WriteOutcome): (b: Bytes)
    ensures b <= doc
    ensures FlushError(flush, doc) == None ==> b == doc
  {
    doc[..Accepted(flush, doc)]
  }

  /** Every step the source checks succeeded: the type matched, encoding worked, the scanner
      answered with a result whose error is empty, and pretty-printing worked. */
  predicate ScanCompleted(s: Snapshot, env: SingleEnv) {
    && s.goType == Profile.goType
    && env.encode(Cascade.Stamp(s, Profile)).Ok?
    && env.scan(Scanned(env.encode(Cascade.Stamp(s, Profile)).value, env.flush)).Ok?
    && env.scan(Scanned(env.encode(Cascade.Stamp(s, Profile)).value, env.flush)).value.error == ""
    && env.marshal(env.scan(Scanned(env.encode(Cascade.Stamp(s, Profile)).value, env.flush)).value).Ok?
  }

  function ResultOf(s: Snapshot, env: SingleEnv): (r: ScanResult)
    requires ScanCompleted(s, env)
    ensures r.error == ""
  {
    env.scan(Scanned(env.encode(Cascade.Stamp(s, Profile)).value, env.flush)).value
  }

  function Report(s: Snapshot, env: SingleEnv): string
    requires ScanCompleted(s, env)
  {
    env.marshal(ResultOf(s, env)).value
  }

  predicate Denies(minScore: int, s: Snapshot, env: SingleEnv) {
    ScanCompleted(s, env) && ResultOf(s, env).score < minScore
  }

  /** The decision Validate returns for an object that came in as `s`. */
  function Decide(minScore: int, s: Snapshot, env: SingleEnv): (r: Reply)
    ensures r.err == None
    ensures r.stop <==> !r.result.valid
    ensures !r.result.valid <==> Denies(minScore, s, env)
    ensures r.result.valid ==> r.result.message == ""
    ensures !r.result.valid ==>
              r.result.message == Cascade.DenialMessage(s.name, ResultOf(s, env).score, minScore,
                                                        Profile.phrase, Report(s, env))
  {
    if s.goType != Profile.goType then AllowReply
    else match env.encode(Cascade.Stamp(s, Profile))
      case Err(_) => AllowReply
      case Ok(doc) =>
        match env.scan(Scanned(doc, env.flush))
        case Err(_) => AllowReply
        case Ok(result) =>
          if result.error != "" then AllowReply
          else match env.marshal(result)
            case Err(_) => AllowReply
            case Ok(report) =>
              if result.score < minScore then
                Reply(true, ValidatorResult(false,
                  Cascade.DenialMessage(s.name, result.score, minScore, Profile.phrase, report)), None)
              else AllowReply
  }

  /** deploymentValidator.Validate on the caller's object. */
  method Validate(v: DeploymentValidator, obj: Object, env: SingleEnv)
    returns (stop: bool, result: ValidatorResult, err: Option<string>)
    modifies obj
    ensures obj.goType == ExtensionsV1beta1Deployment ==> obj.typeMeta == TypeMeta("Deployment", "apps/v1")
    ensures obj.goType != ExtensionsV1beta1Deployment ==> obj.typeMeta == old(obj.typeMeta)
    ensures Reply(stop, result, err) == Decide(v.minScore, old(obj.View()), env)
  {
    if obj.goType != ExtensionsV1beta1Deployment {
      return false, Allow, None;
    }
    var buffer := new ByteBuffer();
    var writer := new BufferedWriter(buffer);
    obj.typeMeta := TypeMeta("Deployment", "apps/v1");
    var encoded := env.encode(obj.View());
    if encoded.Err? {
      return false, Allow, None;
    }
    assert obj.View() == Cascade.Stamp(old(obj.View()), Profile);
    writer.Write(encoded.value);
    assert writer.pending == encoded.value;
    var _ := writer.Flush(env.flush);
    assert buffer.data == Scanned(encoded.value, env.flush);
    var scanned := env.scan(buffer.data);
    if scanned.Err? {
      return false, Allow, None;
    }
    var res := scanned.value;
    if res.error != "" {
      return false, Allow, None;
    }
    var report := env.marshal(res);
    if report.Err? {
      return false, Allow, None;
    }
    if res.score < v.minScore {
      return true, ValidatorResult(false, Cascade.DenialMessage(obj.name, res.score, v.minScore, Profile.phrase, report.value)), None;
    }
    return false, Allow, None;
  }

  // ---- The fail-open branches.

  /** Any object that is not an extensions/v1beta1 Deployment, an apps/v1 Deployment
      included, is accepted without a stop and before any collaborator is consulted. */
  lemma TypeMismatchAllows(minScore: int, s: Snapshot, env: SingleEnv, other: SingleEnv)
    requires s.goType != ExtensionsV1beta1Deployment
    ensures Decide(minScore, s, env) == AllowReply
    ensures Decide(minScore, s, env) == Decide(minScore, s, other)
  {
  }

  /** An encoding failure is accepted; the flush, scanner and printer are not consulted. */
  lemma EncodeFailureAllows(minScore: int, s: Snapshot, env: SingleEnv, flush: WriteOutcome,
                            scan: Bytes -> Result<ScanResult>, marshal: ScanResult -> Result<string>)
    requires env.encode(Cascade.Stamp(s, Profile)).Err?
    ensures Decide(minScore, s, env) == AllowReply
    ensures Decide(minScore, s, env) ==
            Decide(minScore, s, env.(flush := flush, scan := scan, marshal := marshal))
  {
  }

  /** The flush's error never decides anything: two flush outcomes that deliver the same
      bytes give the same reply, whether either reported an error or not. */
  lemma FlushErrorIgnored(minScore: int, s: Snapshot, env: SingleEnv, flush: WriteOutcome)
    requires env.encode(Cascade.Stamp(s, Profile)).Ok?
    requires Accepted(env.flush, env.encode(Cascade.Stamp(s, Profile)).value) ==
             Accepted(flush, env.encode(Cascade.Stamp(s, Profile)).value)
    ensures Decide(minScore, s, env) == Decide(minScore, s, env.(flush := flush))
  {
  }

  /** A flush that took every byte but still returned an error is treated as a success. */
  lemma FullDeliveryWithErrorIsSuccess(minScore: int, s: Snapshot, env: SingleEnv, reason: string)
    requires env.encode(Cascade.Stamp(s, Profile)).Ok?
    requires env.flush.written >= |env.encode(Cascade.Stamp(s, Profile)).value|
    ensures Decide(minScore, s, env.(flush := WriteOutcome(env.flush.written, Some(reason)))) ==
            Decide(minScore, s, env.(flush := WriteOutcome(env.flush.written, None)))
  {
    FlushErrorIgnored(minScore, s, env.(flush := WriteOutcome(env.flush.written, Some(reason))),
                      WriteOutcome(env.flush.written, None));
  }

  /** A transport error or a result carrying an error is accepted without a stop, whatever
      the minimum, and the printer is not consulted. */
  lemma ScanFailureAllows(minScore: int, otherMin: int, s: Snapshot, env: SingleEnv,
                          marshal: ScanResult -> Result<string>)
    requires s.goType == ExtensionsV1beta1Deployment && env.encode(Cascade.Stamp(s, Profile)).Ok?
    requires var answer := env.scan(Scanned(env.encode(Cascade.Stamp(s, Profile)).value, env.flush));
             answer.Err? || answer.value.error != ""
    ensures Decide(minScore, s, env) == AllowReply
    ensures Decide(minScore, s, env) == Decide(otherMin, s, env.(marshal := marshal))
  {
  }

  /** A pretty-printing failure is accepted even when the score is below the minimum. */
  lemma PrettyPrintFailureAllows(minScore: int, s: Snapshot, env: SingleEnv)
    requires s.goType == ExtensionsV1beta1Deployment && env.encode(Cascade.Stamp(s, Profile)).Ok?
    requires var answer := env.scan(Scanned(env.encode(Cascade.Stamp(s, Profile)).value, env.flush));
             answer.Ok? && answer.value.error == "" && env.marshal(answer.value).Err?
    ensures Decide(minScore, s, env) == AllowReply
  {
  }

  /** Once the scan completes, the object is admitted, without a stop, exactly when its
      score reaches the minimum. */
  lemma ThresholdIsStrict(minScore: int, s: Snapshot, env: SingleEnv)
    requires ScanCompleted(s, env)
    ensures Decide(minScore, s, env).result.valid <==> ResultOf(s, env).score >= minScore
    ensures Decide(minScore, s, env).stop <==> ResultOf(s, env).score < minScore
  {
  }

  /** The TypeMeta the object arrives with makes no difference: it is overwritten first. */
  lemma IncomingTypeMetaIrrelevant(minScore: int, s: Snapshot, t: TypeMeta, env: SingleEnv)
    ensures Decide(minScore, s, env) == Decide(minScore, s.(typeMeta := t), env)
  {
    assert Cascade.Stamp(s, Profile) == Cascade.Stamp(s.(typeMeta := t), Profile);
  }

  /** The message of a refusal (Decide) reads
      "<name> score is <s>, deployment minimum accepted score is <m>\nScan Result:\n<report>". */
  lemma DenialText(name: string, score: int, minScore: int, report: string)
    ensures Cascade.DenialMessage(name, score, minScore, Profile.phrase, report) ==
            name + " score is " + IntToString(score) + ", deployment minimum accepted score is "
            + IntToString(minScore) + "\nScan Result:\n" + report
  {
    assert Profile.phrase == "deployment minimum accepted score";
    Cascade.DenialMessageFlat(name, score, minScore, Profile.phrase, report,
                              ", deployment minimum accepted score is ");
  }
}
