/** pkg/webhook/daemonset.go: the validator for apps/v1 DaemonSets and its webhook constructor. */
module DaemonSet {
  import opened Text
  import opened Kube
  import Cascade

  /** TypeMeta "DaemonSet"/"apps/v1" and the phrase "daemonset minimum accepted score". */
  const Profile := Cascade.Profile(AppsV1DaemonSet, "DaemonSet", "apps/v1", "daemonset minimum accepted score")

  /** daemonSetsValidator: the minimum score (the logger is not modelled). */
  datatype DaemonSetValidator = DaemonSetValidator(minScore: int)

  /** NewDaemonSetWebhook: a webhook with ID "kubesec-daemonset" decoding into DaemonSets and validating with
      the given minimum. */
  function NewDaemonSetWebhook(minScore: int): (w: WebhookConfig<DaemonSetValidator>)
    ensures w.id == "kubesec-daemonset" && w.obj == AppsV1DaemonSet
    ensures w.validator.minScore == minScore
  {
    WebhookConfig("kubesec-daemonset", AppsV1DaemonSet, DaemonSetValidator(minScore))
  }

  /** daemonSetsValidator.Validate (its log line on a type mismatch is not modelled) on the caller's object. */
  method Validate(v: DaemonSetValidator, obj: Object, env: Cascade.ListEnv)
    returns (result: ValidatorResult, err: Option<string>)
    modifies obj
    ensures obj.goType == AppsV1DaemonSet ==> obj.typeMeta == TypeMeta("DaemonSet", "apps/v1")
    ensures obj.goType != AppsV1DaemonSet ==> obj.typeMeta == old(obj.typeMeta)
    ensures err == None
    ensures Cascade.Reply(result, err) == Cascade.Decide(Profile, v.minScore, old(obj.View()), env)
  {
    result, err := Cascade.Validate(Profile, v.minScore, obj, env);
  }

  /** The message of a refusal (Cascade.Decide) reads "<name> score is <s>, daemonset minimum accepted score is <m>\nScan Result:\n<report>". */
  lemma DenialText(name: string, score: int, minScore: int, report: string)
    ensures Cascade.DenialMessage(name, score, minScore, Profile.phrase, report) ==
            name + " score is " + IntToString(score) + ", daemonset minimum accepted score is " + IntToString(minScore)
            + "\nScan Result:\n" + report
  {
    assert Profile.phrase == "daemonset minimum accepted score";
    Cascade.DenialMessageFlat(name, score, minScore, Profile.phrase, report, ", daemonset minimum accepted score is ");
  }
}
