/** pkg/webhook/pod.go: the validator for core/v1 Pods and its webhook constructor. */
module Pod {
  import opened Text
  import opened Kube
  import Cascade

  /** TypeMeta "Pod"/"v1" and the phrase "minimum accepted score". */
  const Profile := Cascade.Profile(CoreV1Pod, "Pod", "v1", "minimum accepted score")

  /** podValidator: the minimum score (the logger is not modelled). */
  datatype PodValidator = PodValidator(minScore: int)

  /** NewPodWebhook: a webhook with ID "kubesec-pod" decoding into Pods and validating with
      the given minimum. */
  function NewPodWebhook(minScore: int): (w: WebhookConfig<PodValidator>)
    ensures w.id == "kubesec-pod" && w.obj == CoreV1Pod
    ensures w.validator.minScore == minScore
  {
    WebhookConfig("kubesec-pod", CoreV1Pod, PodValidator(minScore))
  }

  /** podValidator.Validate on the caller's object. */
  method Validate(v: PodValidator, obj: Object, env: Cascade.ListEnv)
    returns (result: ValidatorResult, err: Option<string>)
    modifies obj
    ensures obj.goType == CoreV1Pod ==> obj.typeMeta == TypeMeta("Pod", "v1")
    ensures obj.goType != CoreV1Pod ==> obj.typeMeta == old(obj.typeMeta)
    ensures err == None
    ensures Cascade.Reply(result, err) == Cascade.Decide(Profile, v.minScore, old(obj.View()), env)
  {
    result, err := Cascade.Validate(Profile, v.minScore, obj, env);
  }

  /** The message of a refusal (Cascade.Decide) reads "<name> score is <s>, minimum accepted score is <m>\nScan Result:\n<report>". */
  lemma DenialText(name: string, score: int, minScore: int, report: string)
    ensures Cascade.DenialMessage(name, score, minScore, Profile.phrase, report) ==
            name + " score is " + IntToString(score) + ", minimum accepted score is " + IntToString(minScore)
            + "\nScan Result:\n" + report
  {
    assert Profile.phrase == "minimum accepted score";
    Cascade.DenialMessageFlat(name, score, minScore, Profile.phrase, report, ", minimum accepted score is ");
  }
}
