/** The server-side bearer-token check (web/lib/verifyIDToken.ts). */
module IdToken {
  import opened Wrappers

  /** The prefix removed before the token goes to the verifier. */
  const BearerPrefix: string := "Bearer "

  /** `pat` occurs in `s` starting at index `i`. */
  predicate OccursAt(s: string, pat: string, i: int) {
    0 <= i && i + |pat| <= |s| && s[i..i + |pat|] == pat
  }

  /** The first index at or after `from` where `pat` occurs in `s`. */
  function IndexFrom(s: string, pat: string, from: nat): (r: Option<nat>)
    requires from <= |s|
    ensures r.Some? ==> from <= r.value && OccursAt(s, pat, r.value)
    ensures forall j :: from <= j && (r.None? || j < r.value) ==> !OccursAt(s, pat, j)
    decreases |s| - from
  {
    if OccursAt(s, pat, from) then Some(from)
    else if from == |s| then None
    else IndexFrom(s, pat, from + 1)
  }

  /** `s.indexOf(pat)`, with `None` for JavaScript's -1. */
  function IndexOf(s: string, pat: string): (r: Option<nat>)
    ensures r.Some? ==> OccursAt(s, pat, r.value)
    ensures forall j :: 0 <= j && (r.None? || j < r.value) ==> !OccursAt(s, pat, j)
  {
    IndexFrom(s, pat, 0)
  }

  /** `s.replace(pat, "")` with a string pattern: only the first occurrence
      is removed; without an occurrence the string is returned as it is. */
  function RemoveFirst(s: string, pat: string): (r: string)
    ensures IndexOf(s, pat).None? ==> r == s
    ensures IndexOf(s, pat).Some? ==> |r| == |s| - |pat|
  {
    match IndexOf(s, pat)
    case None => s
    case Some(i) => s[..i] + s[i + |pat|..]
  }

  /** Putting the removed occurrence back at its index restores the input. */
  lemma RemoveFirstInverse(s: string, pat: string)
    requires IndexOf(s, pat).Some?
    ensures var i := IndexOf(s, pat).value;
            i <= |RemoveFirst(s, pat)| &&
            RemoveFirst(s, pat)[..i] + pat + RemoveFirst(s, pat)[i..] == s
  {
  }

  /** A token that starts with "Bearer " loses exactly those seven characters. */
  lemma LeadingBearerStripped(token: string)
    requires |token| >= |BearerPrefix| && token[..|BearerPrefix|] == BearerPrefix
    ensures RemoveFirst(token, BearerPrefix) == token[7..]
  {
  }

  /** A token without "Bearer " anywhere in it is passed on unchanged. */
  lemma NoBearerUnchanged(token: string)
    requires forall j :: 0 <= j <= |token| ==> !OccursAt(token, BearerPrefix, j)
    ensures RemoveFirst(token, BearerPrefix) == token
  {
  }

  /** What `verifyIdToken` of the admin SDK does with a string: it resolves
      with the decoded token, or it throws, for whatever reason (expired,
      malformed, revoked, network failure). */
  datatype VerifyResponse = Decoded(uid: string) | Threw(reason: string)

  /** The external verifier, an oracle the core cannot see into. */
  type Verifier = string -> VerifyResponse

  /** The verdict, together with the string handed to the verifier, if any. */
  datatype Verdict = Verdict(valid: bool, consulted: Option<string>)

  /** verifyIDToken: fails closed. An absent or empty token is refused
      without a call; otherwise the token, with its first "Bearer " removed,
      goes to the verifier, and the verdict is whether the verifier returned. */
  function VerifyIdToken(token: Option<string>, verifier: Verifier): (v: Verdict)
    ensures token.None? || token == Some("") ==> v == Verdict(false, None)
    ensures token.Some? && token.value != "" ==>
              v.consulted == Some(RemoveFirst(token.value, BearerPrefix))
    ensures v.valid <==> v.consulted.Some? && verifier(v.consulted.value).Decoded?
  {
    if token.None? || token.value == "" then Verdict(false, None)
    else
      var raw := RemoveFirst(token.value, BearerPrefix);
      match verifier(raw)
      case Decoded(_) => Verdict(true, Some(raw))
      case Threw(_) => Verdict(false, Some(raw))
  }

  /** Only what the verifier does (return or throw) matters, not the decoded
      content it returns: two verifiers that agree on that agree on the verdict. */
  lemma ResponseContentIgnored(token: Option<string>, v1: Verifier, v2: Verifier)
    requires forall t :: v1(t).Decoded? <==> v2(t).Decoded?
    ensures VerifyIdToken(token, v1) == VerifyIdToken(token, v2)
  {
  }

  /** Fail-closed: a verifier that throws on every input never lets a token
      through, and a token is valid only if the verifier accepted the exact
      string derived from it. */
  lemma FailsClosed(token: Option<string>, verifier: Verifier)
    ensures (forall t :: verifier(t).Threw?) ==> !VerifyIdToken(token, verifier).valid
    ensures VerifyIdToken(token, verifier).valid ==>
              token.Some? && token.value != ""
              && verifier(RemoveFirst(token.value, BearerPrefix)).Decoded?
  {
  }
}
