/**
 Which secret serves a repository: annotations are visited in no particular order, and a
 kabanero.io annotation is preferred over a tekton.dev one.
 */
module Secrets {
  import opened Text

  /** A secret is its annotations. */
  type Secret = map<string, string>

  const TEKTON := "tekton.dev/git-"
  const KABANERO := "kabanero.io/git-"

  predicate HasPrefix(s: string, prefix: string) {
    prefix <= s
  }

  ghost predicate Matches(s: Secret, kind: string, repoURL: string) {
    exists key :: key in s && HasPrefix(key, kind) && HasPrefix(repoURL, s[key])
  }

  /** What a match is: an annotation under a name with this prefix, whose value the URL goes on from. */
  lemma MatchSpelled(s: Secret, repoURL: string)
    ensures Matches(s, KABANERO, repoURL)
        <==> exists name, path :: "kabanero.io/git-" + name in s && repoURL == s["kabanero.io/git-" + name] + path
    ensures Matches(s, TEKTON, repoURL)
        <==> exists name, path :: "tekton.dev/git-" + name in s && repoURL == s["tekton.dev/git-" + name] + path
  {
    KindSpelled(s, KABANERO, repoURL);
    KindSpelled(s, TEKTON, repoURL);
  }

  lemma KindSpelled(s: Secret, kind: string, repoURL: string)
    ensures Matches(s, kind, repoURL) <==> exists name, path :: kind + name in s && repoURL == s[kind + name] + path
  {
    if key :| key in s && HasPrefix(key, kind) && HasPrefix(repoURL, s[key]) {
      var name, path := key[|kind|..], repoURL[|s[key]|..];
      assert key == kind + name && repoURL == s[kind + name] + path;
    }
    if name, path :| kind + name in s && repoURL == s[kind + name] + path {
      assert HasPrefix(kind + name, kind) && HasPrefix(repoURL, s[kind + name]);
    }
  }

  /** The first secret with a matching kabanero.io annotation. */
  ghost predicate IsFirstKabanero(secrets: seq<Secret>, repoURL: string, i: nat) {
    && i < |secrets| && Matches(secrets[i], KABANERO, repoURL)
    && forall j | 0 <= j < i :: !Matches(secrets[j], KABANERO, repoURL)
  }

  /** The last secret with a matching tekton.dev annotation. */
  ghost predicate IsLastTekton(secrets: seq<Secret>, repoURL: string, i: nat) {
    && i < |secrets| && Matches(secrets[i], TEKTON, repoURL)
    && forall j | i < j < |secrets| :: !Matches(secrets[j], TEKTON, repoURL)
  }

  /** What the search promises: kabanero.io first, else tekton.dev, else nothing. */
  ghost predicate Selected(secrets: seq<Secret>, repoURL: string, r: Option<nat>) {
    if exists i :: 0 <= i < |secrets| && Matches(secrets[i], KABANERO, repoURL) then
      r.Some? && IsFirstKabanero(secrets, repoURL, r.value)
    else if exists i :: 0 <= i < |secrets| && Matches(secrets[i], TEKTON, repoURL) then
      r.Some? && IsLastTekton(secrets, repoURL, r.value)
    else r.None?
  }

  /** The kinds exclude each other: no key starts with both. */
  lemma KindsDiffer(key: string)
    ensures !(HasPrefix(key, TEKTON) && HasPrefix(key, KABANERO))
  {
    assert TEKTON[0] != KABANERO[0];
  }

  /** The annotations of one secret, in an arbitrary order, up to the first kabanero.io match. */
  method ScanAnnotations(annotations: Secret, repoURL: string) returns (kabanero: bool, tekton: bool)
    ensures kabanero <==> Matches(annotations, KABANERO, repoURL)
    ensures !kabanero ==> (tekton <==> Matches(annotations, TEKTON, repoURL))
  {
    kabanero, tekton := false, false;
    var todo := annotations.Keys;
    while todo != {}
      invariant todo <= annotations.Keys
      invariant forall key | key in annotations.Keys - todo ::
                  !(HasPrefix(key, KABANERO) && HasPrefix(repoURL, annotations[key]))
      invariant tekton ==> Matches(annotations, TEKTON, repoURL)
      invariant !tekton ==>
                  forall key | key in annotations.Keys - todo ::
                    !(HasPrefix(key, TEKTON) && HasPrefix(repoURL, annotations[key]))
      decreases |todo|
    {
      var key :| key in todo;
      var val := annotations[key];
      KindsDiffer(key);
      if HasPrefix(key, TEKTON) && HasPrefix(repoURL, val) {
        tekton := true;
      } else if HasPrefix(key, KABANERO) && HasPrefix(repoURL, val) {
        return true, tekton;
      }
      todo := todo - {key};
    }
  }

  /**
   The position of the selected secret. The promise leaves no choice, so the order in which annotations
   are visited plays no part.
   */
  method GetGitHubSecretForRepo(secrets: seq<Secret>, repoURL: string) returns (r: Option<nat>)
    ensures Selected(secrets, repoURL, r)
    ensures forall r' | Selected(secrets, repoURL, r') :: r' == r
  {
    var tknSecret: Option<nat> := None;
    for i := 0 to |secrets|
      invariant forall j | 0 <= j < i :: !Matches(secrets[j], KABANERO, repoURL)
      invariant tknSecret.None? ==> forall j | 0 <= j < i :: !Matches(secrets[j], TEKTON, repoURL)
      invariant tknSecret.Some? ==>
                  && tknSecret.value < i && Matches(secrets[tknSecret.value], TEKTON, repoURL)
                  && forall j | tknSecret.value < j < i :: !Matches(secrets[j], TEKTON, repoURL)
    {
      var kabanero, tekton := ScanAnnotations(secrets[i], repoURL);
      if kabanero {
        return Some(i);
      }
      if tekton {
        tknSecret := Some(i);
      }
    }
    r := tknSecret;
  }
}
