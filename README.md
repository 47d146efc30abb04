# kubesec admission webhook: the validator decision, modelled in Dafny

The webhook admits or refuses Pods, DaemonSets and Deployments by their kubesec.io security
score. Each kind has a validator (`pkg/webhook/pod.go`, `pkg/webhook/daemonset.go`,
`pkg/webhook/deployment.go`) whose `Validate` runs the same cascade of early returns:

1. type-assert the object to the validator's Go type;
2. overwrite its TypeMeta in place (Kind and APIVersion);
3. YAML-encode it into a `bufio.Writer` over a `bytes.Buffer` and flush;
4. hand the buffer to the kubesec scanner and check the shape of the reply;
5. pretty-print the reply with `json.MarshalIndent`;
6. refuse the object when its score is strictly below `minScore`.

The message puts `\nScan Result:\n` before the report. deployment.go has no result-count
check and discards the flush error.

The policy is fail-open. Every infrastructure failure returns `Valid: true` and a nil error.
Only a scan that completed with a score below the minimum gives `Valid: false`, with the message
`"<name> score is <score>, <phrase> is <minScore>\nScan Result:\n<report>"`. The phrase is
"minimum accepted score" for pods, "daemonset minimum accepted score" for daemonsets and
"deployment minimum accepted score" for deployments.

Modules:

- `Text` (text.dfy): Go's `%d` on an int (`IntToString`), a parser that inverts it, and the
  round trip.
- `Kube` (kube.dfy): TypeMeta, the dynamic Go type of the object, the object itself (a class,
  since `Validate` stamps its TypeMeta in place), scan results, `ValidatorResult` and the webhook
  configuration.
- `Buffers` (buffers.dfy): the `bytes.Buffer` and the `bufio.Writer` in front of it, as two
  classes. `Flush` follows bufio: nothing pending gives no error, a short write gives
  "short write", and a failed write leaves the undelivered bytes pending. A `bytes.Buffer`'s
  own `Write` always takes the whole slice and returns a nil error, so in the program as
  written the flush never fails: the flush-error branches of pod.go and daemonset.go are
  unreachable there, and deployment.go always scans the whole document. The model allows every
  flush outcome, so the flush lemmas also cover a buffer that could fail.
- `Cascade` (cascade.dfy): the cascade that pod.go and daemonset.go both write out with the v2
  libraries. Apart from logging, they differ only in constants, which a `Profile` holds. It contains the
  specification function `Decide`, the method `Validate` that runs the cascade on the caller's
  object and is proved equal to `Decide`, and the lemmas about `Decide`.
- `Pod`, `DaemonSet` (pod.dfy, daemonset.dfy): each file's profile, constructor, `Validate` and
  exact message text.
- `Deployment` (deployment.dfy): the older-library validator. It has its own `Decide` and
  `Validate`, because it returns a `stop` flag, ignores the flush error and scans a single
  result.

The collaborators are inputs, gathered in an environment value (`Cascade.ListEnv`,
`Deployment.SingleEnv`):

- the serializer is a function of the object as it looks after stamping;
- the flush is the answer of the buffer's one `Write`;
- the scanner is a function of the bytes in the buffer;
- the pretty-printer is a function of the scanner's reply.

"The scanner is not called" is therefore stated as: the reply is the same whatever the scanner
(or the printer, or the flush) would have answered.

## Model

| member | source | states |
|---|---|---|
| Cascade.Decide | pkg/webhook/pod.go:29-90 | the error is always nil; the result is a refusal exactly when every step succeeded and the score is below the minimum (`Denies`); an admission carries the empty message; a refusal carries the denial message built from the name, the score, the minimum, the phrase and the report |
| Cascade.Validate | pkg/webhook/daemonset.go:29-91 | run on the caller's object, it stamps the profile's TypeMeta in place when the type matches and leaves the object alone otherwise; its result and error equal `Decide` on the object as it came in |
| Cascade.TypeMismatchAllows | pkg/webhook/pod.go:30-33 | an object of another Go type is admitted with a nil error, and no collaborator matters |
| Cascade.IncomingTypeMetaIrrelevant | pkg/webhook/pod.go:39-42 | the TypeMeta the object arrives with never changes the reply, because it is overwritten before encoding |
| Cascade.EncodeFailureAllows | pkg/webhook/pod.go:44-48 | an encoding failure is admitted, whatever the flush, the scanner and the printer would have answered |
| Cascade.FlushFailureAllows | pkg/webhook/pod.go:50-53 | a flush error is admitted, whatever the scanner and the printer would have answered |
| Cascade.ScannerSeesEncodedDocument | pkg/webhook/pod.go:57-58 | after a successful flush, the scanner's answer on the serializer's output is the only one that matters |
| Cascade.ScanFailureAllows | pkg/webhook/pod.go:60-73 | a scan error, a reply without exactly one result, or a result with a non-empty error is admitted, for every minimum and every printer |
| Cascade.PrettyPrintFailureAllows | pkg/webhook/pod.go:75-79 | a pretty-printing failure is admitted even when the score is below the minimum |
| Cascade.ThresholdIsStrict | pkg/webhook/pod.go:82-89 | once the scan completes, the object is admitted if and only if score >= minimum, so a score equal to the minimum is admitted |
| Cascade.DenialMonotone | pkg/webhook/daemonset.go:83-90 | a refusal at some minimum stays a refusal at any higher minimum |
| Cascade.Stamp | pkg/webhook/pod.go:39-42 | the object the serializer sees has the profile's Kind and APIVersion as its TypeMeta, and the same Go type, name and body as the incoming object |
| Cascade.DenialMessage | pkg/webhook/pod.go:85 | the refusal text of the `Sprintf` at pod.go:85, daemonset.go:86 and deployment.go:71; the function carries no `ensures` of its own: `DenialMessageFrame`, `DenialMessageInjective` and the three `DenialText` lemmas pin it (exact text per kind, score, minimum and report readable back) |
| Cascade.DenialMessageFrame | pkg/webhook/daemonset.go:86 | the refusal text starts with the object's name, ends with the pretty-printed report, and is longer than the two together |
| Cascade.DenialMessageInjective | pkg/webhook/pod.go:85 | for a fixed name and phrase, two denial messages are equal if and only if their score, minimum and report are equal |
| Pod.Validate | pkg/webhook/pod.go:29-90 | a `*v1.Pod` is stamped Kind "Pod", APIVersion "v1" in place; any other object is left unchanged; the error is nil; the result is the pod profile's `Decide` |
| Pod.DenialText | pkg/webhook/pod.go:85 | the pod refusal message is exactly "<name> score is <s>, minimum accepted score is <m>\nScan Result:\n<report>" |
| Pod.NewPodWebhook | pkg/webhook/pod.go:93-108 | the webhook has ID "kubesec-pod", decodes into `v1.Pod`, and its validator keeps the given minScore unchanged |
| DaemonSet.Validate | pkg/webhook/daemonset.go:29-91 | a `*appsv1.DaemonSet` is stamped Kind "DaemonSet", APIVersion "apps/v1" in place; any other object is left unchanged; the error is nil; the result is the daemonset profile's `Decide` |
| DaemonSet.DenialText | pkg/webhook/daemonset.go:86 | the daemonset refusal message is exactly "<name> score is <s>, daemonset minimum accepted score is <m>\nScan Result:\n<report>" |
| DaemonSet.NewDaemonSetWebhook | pkg/webhook/daemonset.go:94-109 | the webhook has ID "kubesec-daemonset", decodes into `appsv1.DaemonSet`, and its validator keeps the given minScore unchanged |
| Deployment.Decide | pkg/webhook/deployment.go:26-76 | the error is always nil; `stop` holds exactly when the result is a refusal; a refusal happens exactly when the type matched, encoding worked, the single scan result has an empty error, printing worked and the score is below the minimum; the messages as for the other kinds |
| Deployment.Validate | pkg/webhook/deployment.go:26-76 | an `*extensionsv1beta1.Deployment` is stamped Kind "Deployment", APIVersion "apps/v1" in place; any other object is left unchanged; the returned triple equals `Deployment.Decide` on the object as it came in |
| Deployment.TypeMismatchAllows | pkg/webhook/deployment.go:27-30 | any other object, an apps/v1 Deployment included, gives (false, Valid, nil), and no collaborator matters |
| Deployment.IncomingTypeMetaIrrelevant | pkg/webhook/deployment.go:36-39 | the TypeMeta the object arrives with never changes the reply |
| Deployment.EncodeFailureAllows | pkg/webhook/deployment.go:41-45 | an encoding failure gives (false, Valid, nil), whatever the flush, the scanner and the printer would have answered |
| Deployment.Scanned | pkg/webhook/deployment.go:47-51 | the scanner reads a prefix of the encoded document: the whole document when the flush succeeded |
| Deployment.FlushErrorIgnored | pkg/webhook/deployment.go:47 | two flush outcomes that deliver the same bytes give the same reply, whether or not they report an error |
| Deployment.FullDeliveryWithErrorIsSuccess | pkg/webhook/deployment.go:47 | a flush that delivered every byte yet returned an error decides exactly as a clean flush |
| Deployment.ScanFailureAllows | pkg/webhook/deployment.go:51-59 | a scan error or a non-empty result error gives (false, Valid, nil), for every minimum and every printer; there is no count check |
| Deployment.PrettyPrintFailureAllows | pkg/webhook/deployment.go:61-65 | a pretty-printing failure gives (false, Valid, nil) even when the score is below the minimum |
| Deployment.ThresholdIsStrict | pkg/webhook/deployment.go:68-75 | once the scan completes, the object is admitted if and only if score >= minimum, and `stop` holds if and only if score < minimum |
| Deployment.DenialText | pkg/webhook/deployment.go:71 | the deployment refusal message is exactly "<name> score is <s>, deployment minimum accepted score is <m>\nScan Result:\n<report>" |
| Deployment.NewDeploymentWebhook | pkg/webhook/deployment.go:79-93 | the webhook is named "kubesec-deployment", decodes into `extensionsv1beta1.Deployment`, and its validator keeps the given minScore unchanged |
| Buffers.FlushError | pkg/webhook/pod.go:50-53 | bufio's Flush error: none when nothing is pending; the write's own error if it failed; "short write" when it took fewer bytes than were pending; none otherwise |
| Buffers.BufferedWriter.Write | pkg/webhook/pod.go:44 | the serializer's output is appended to the bytes waiting in the writer; the buffer behind it is not touched until `Flush` |
| Buffers.BufferedWriter.Flush | pkg/webhook/daemonset.go:51-54 | returns `FlushError`; moves the accepted prefix of the pending bytes to the buffer and keeps the rest pending |
| Text.IntToString | pkg/webhook/pod.go:85 | the `%d` text of an int is non-empty, starts with '-' exactly for negative values, and is otherwise only digits, with no leading zeros: a text starting with '0' is exactly "0", and a '-' is never followed by '0' |
| Text.NatToString | pkg/webhook/daemonset.go:86 | the digits of a natural number: only digits, a leading '0' only for zero, and zero written as exactly "0" |
| Text.NatRoundTrip | pkg/webhook/deployment.go:71 | parsing the digits of n gives back n |
| Text.IntRoundTrip | pkg/webhook/pod.go:85 | parsing `IntToString(i)` gives back i |
| Text.IntToStringInjective | pkg/webhook/pod.go:85 | two integers have the same text if and only if they are equal |

## Left out

- Logging: every `logger.Errorf` and `logger.Infof` call is left out, because it is a side effect that never changes the result. This includes daemonset.go's log line on a type mismatch, which pod.go and deployment.go do not have.
- Buffers.BufferedWriter.Write: it keeps every encoded byte pending until `Flush`. It does not model bufio's 4096-byte internal buffer, which hands large writes straight to the `bytes.Buffer`. A failure in such a write surfaces as an encoding error, and the model's `encode` outcome covers that.
- The YAML serializer, the kubesec clients and `json.MarshalIndent` are opaque. Each is an input function of what it is given. The output format, the scan URL and the timeout (not defined in these files) and the network call are not modelled.
- Pod.NewPodWebhook, DaemonSet.NewDaemonSetWebhook and Deployment.NewDeploymentWebhook: the model returns the configuration handed to `validating.NewWebhook`. That library function's own checks and its possible error are not part of this model. Neither are the logger and the metrics recorder; deployment.go's constructor takes the recorder as an extra parameter (the main program calls it without one).
- The `context.Context` and `AdmissionReview` arguments of `Validate` are unused by the source and not modelled. So are the admission protocol and the HTTP routing in cmd/kubesec/main.go.
- The StatefulSet webhook named by the main program is not part of this model: its source file is not among the files modelled.
- Panics are not modelled. A typed nil `*v1.Pod` (or DaemonSet, or Deployment) would pass the type assertion and then panic on the TypeMeta assignment; the model's `Object` is never nil, and the admission library never hands `Validate` a typed nil.
- Go's `int` is 32 or 64 bits wide, depending on the platform, while the model's scores and minimums are unbounded integers. The only arithmetic is one comparison, so wrap-around plays no part.
- The pretty-printed report is kept as a string. Go formats the `[]byte` from MarshalIndent with `%s`, which writes the same text.
