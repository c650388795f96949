/** The keys under which objects wait for their pass: namespace and name joined by a slash. */
module ManagerKeys {
  import opened Prelude

  function QueueKey(ns: string, name: string): string {
    ns + "/" + name
  }

  /** Cut at the first slash; a key without one is a name. */
  function SplitKey(key: string): (string, string) {
    var i := SlashAt(key);
    if i < |key| then (key[..i], key[i + 1..]) else ("", key)
  }

  /** The pass for an object's key is for that object exactly if its namespace has no slash. */
  lemma KeysRoundTrip(ns: string, name: string)
    ensures SplitKey(QueueKey(ns, name)) == (ns, name) <==> '/' !in ns
  {
    var key := QueueKey(ns, name);
    var i := SlashAt(key);
    assert key[|ns|] == '/';
    if '/' !in ns {
      assert forall k :: 0 <= k < |ns| ==> key[k] == ns[k];
      assert i == |ns|;
      assert key[..i] == ns && key[i + 1..] == name;
    } else {
      var j :| 0 <= j < |ns| && ns[j] == '/';
      assert key[j] == '/';
      assert i <= j;
    }
  }

  /** So no two objects of slash-free namespaces share a key, and passes that may not overlap never do. */
  lemma KeysDiffer(ns: string, name: string, ns2: string, name2: string)
    requires '/' !in ns && '/' !in ns2 && QueueKey(ns, name) == QueueKey(ns2, name2)
    ensures ns == ns2 && name == name2
  {
    KeysRoundTrip(ns, name);
    KeysRoundTrip(ns2, name2);
  }
}
