/** internal/podspec/id.go: Docker container IDs derived from pod names. */
module Ids {

  predicate IsContainerID(s: string)
  {
    |s| == 64 && forall i :: 0 <= i < |s| ==> '0' <= s[i] <= '9' || 'a' <= s[i] <= 'f'
  }

  /** Hex-encoded SHA-256, of which only the shape of its results is assumed. */
  ghost predicate IsDigest(h: string -> string) { forall s :: IsContainerID(h(s)) }

  function ContainerID(digest: string -> string, namespace: string, name: string): string
  {
    digest(namespace + "/" + name)
  }

  function ShortID(id: string): string
  {
    if |id| <= 12 then id else id[..12]
  }

  /** No two of the pod names `names` hash to the same ID. */
  predicate Separates(digest: string -> string, namespace: string, names: set<string>)
  {
    forall n, n' :: n in names && n' in names ==>
      (ContainerID(digest, namespace, n) == ContainerID(digest, namespace, n') ==> n == n')
  }

  /**
   * Namespace and name are told apart: a namespace has no slash, so IDs are equal only where the hash collides.
   */
  lemma IdsTellApart(digest: string -> string, namespace: string, name: string, namespace': string, name': string)
    requires '/' !in namespace && '/' !in namespace'
    requires digest(namespace + "/" + name) == digest(namespace' + "/" + name') ==>
      namespace + "/" + name == namespace' + "/" + name'
    ensures ContainerID(digest, namespace, name) == ContainerID(digest, namespace', name') <==>
      namespace == namespace' && name == name'
  {
    var a, b := namespace + "/" + name, namespace' + "/" + name';
    assert a[|namespace|] == '/' && b[|namespace'|] == '/';
    assert |namespace| < |namespace'| ==> b[|namespace|] in namespace';
    assert |namespace'| < |namespace| ==> a[|namespace'|] in namespace;
    if a == b {
      assert a[..|namespace|] == namespace && b[..|namespace'|] == namespace';
      assert a[|namespace| + 1..] == name && b[|namespace'| + 1..] == name';
    }
  }
}
