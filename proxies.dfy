/**
 * Proxy strings `ip:port` and `ip:port:user:pass`: the Chrome argument built
 * from one, the proxy dictionary used to probe it, and the validation of a
 * loaded proxy list. The probe's HTTP reply is a parameter.
 */
module Proxies {
  import opened Wrappers
  import opened PyStr

  const ProxyFlag: string := "--proxy-server="

  /** `proxy.split(':')` */
  function Fields(proxy: string): seq<string> {
    Split(proxy, ':')
  }

  predicate WellFormed(proxy: string) {
    |Fields(proxy)| == 2 || |Fields(proxy)| == 4
  }

  /** `ip:port`, the first two fields joined again. */
  function HostPort(proxy: string): string
    requires |Fields(proxy)| >= 2
  {
    Join(Fields(proxy)[..2], ':')
  }

  /**
   * The `--proxy-server` argument `setup_chrome_driver` adds, if any: for two
   * fields the proxy as it is, for four fields only `ip:port` (Chrome takes no
   * credentials on the command line); nothing for no proxy, an empty one, or
   * any other number of fields.
   */
  function ProxyArgument(proxy: Option<string>): (arg: Option<string>)
    ensures arg.Some? <==> proxy.Some? && WellFormed(proxy.value)
    ensures arg.Some? ==> arg.value == ProxyFlag + "http://" + HostPort(proxy.value)
  {
    if proxy.None? || proxy.value == "" then None
    else
      var f := Fields(proxy.value);
      if |f| == 2 then
        SplitJoin(proxy.value, ':');
        assert f[..2] == f;
        Some(ProxyFlag + "http://" + proxy.value)
      else if |f| == 4 then
        assert Join(f[..2], ':') == f[0] + [':'] + f[1];
        Some(ProxyFlag + "http://" + f[0] + ":" + f[1])
      else None
  }

  /** The server Chrome is pointed at has exactly two fields, the proxy's ip and port: its credentials are dropped. */
  lemma ProxyArgumentDropsCredentials(proxy: string)
    requires WellFormed(proxy)
    ensures ProxyArgument(Some(proxy)) == Some(ProxyFlag + "http://" + HostPort(proxy))
    ensures Fields(HostPort(proxy)) == Fields(proxy)[..2]
  {
    var f := Fields(proxy);
    SplitFieldsFree(proxy, ':');
    JoinSplit(f[..2], ':');
  }

  /**
   * The `proxies` dictionary `validate_proxy` passes to its probe, or `None`
   * when it returns `False` before probing: the same URL under "http" and
   * "https", `http://ip:port` or `http://user:pass@ip:port`.
   */
  function ProbeProxies(proxy: string): (d: Option<map<string, string>>)
    ensures d.Some? <==> WellFormed(proxy)
    ensures d.Some? ==> d.value.Keys == {"http", "https"} && d.value["http"] == d.value["https"]
  {
    var f := Fields(proxy);
    if |f| == 2 then
      var url := "http://" + proxy;
      Some(map["http" := url, "https" := url])
    else if |f| == 4 then
      var url := "http://" + f[2] + ":" + f[3] + "@" + f[0] + ":" + f[1];
      Some(map["http" := url, "https" := url])
    else None
  }

  /**
   * The two forms agree: they accept the same strings, and the probe goes to
   * the server Chrome is given, with `user:pass@` in front for four fields.
   */
  lemma ProxyFormsAgree(proxy: string)
    ensures ProxyArgument(Some(proxy)).Some? <==> ProbeProxies(proxy).Some?
    ensures |Fields(proxy)| == 2 ==>
      ProbeProxies(proxy).value["http"] == "http://" + proxy == "http://" + HostPort(proxy)
    ensures |Fields(proxy)| == 4 ==>
      ProbeProxies(proxy).value["http"] == "http://" + Fields(proxy)[2] + ":" + Fields(proxy)[3] + "@" + HostPort(proxy)
    ensures WellFormed(proxy) ==> ProxyArgument(Some(proxy)).value == ProxyFlag + "http://" + HostPort(proxy)
  {
    var f := Fields(proxy);
    if |f| == 2 {
      SplitJoin(proxy, ':');
      assert f[..2] == f;
    } else if |f| == 4 {
      assert Join(f[..2], ':') == f[0] + [':'] + f[1];
    }
  }

  /**
   * `validate_proxy`, given the status code the probe got (`None` when it
   * raised): a malformed proxy is refused whatever the network would say.
   */
  function ValidateProxy(proxy: string, reply: Option<int>): (ok: bool)
    ensures !WellFormed(proxy) ==> !ok
    ensures WellFormed(proxy) ==> (ok <==> reply == Some(200))
  {
    match ProbeProxies(proxy)
    case None => false
    case Some(_) => reply == Some(200)
  }

  function ReplyAt(replies: seq<Option<int>>, i: nat): Option<int> {
    if i < |replies| then replies[i] else None
  }

  /** The proxies of the list that pass validation, in order; `replies[i]` is what the probe of the i-th got. */
  function ValidProxies(proxies: seq<string>, replies: seq<Option<int>>): seq<string>
    decreases |proxies|
  {
    if proxies == [] then []
    else
      var n := |proxies| - 1;
      ValidProxies(proxies[..n], replies) + (if ValidateProxy(proxies[n], ReplyAt(replies, n)) then [proxies[n]] else [])
  }

  /** How many proxies of the list `validate_proxy` accepts. */
  function AcceptedCount(proxies: seq<string>, replies: seq<Option<int>>): nat
    decreases |proxies|
  {
    if proxies == [] then 0
    else
      var n := |proxies| - 1;
      AcceptedCount(proxies[..n], replies) + (if ValidateProxy(proxies[n], ReplyAt(replies, n)) then 1 else 0)
  }

  /** Each proxy of the list paired with the verdict `validate_proxy` gave it. */
  function Verdicts(proxies: seq<string>, replies: seq<Option<int>>): seq<(string, bool)> {
    seq(|proxies|, i requires 0 <= i < |proxies| => (proxies[i], ValidateProxy(proxies[i], ReplyAt(replies, i))))
  }

  /** Proxies paired with an accepting verdict. */
  function AllAccepted(valid: seq<string>): seq<(string, bool)> {
    seq(|valid|, k requires 0 <= k < |valid| => (valid[k], true))
  }

  /**
   * Validation keeps, in order, exactly the proxies `validate_proxy` accepts:
   * the kept proxies are picked, in order, from entries whose own probe
   * accepted them; each is well formed and gets a Chrome argument; every
   * accepted proxy is kept, and as many are kept as are accepted.
   */
  lemma ValidProxiesSpec(proxies: seq<string>, replies: seq<Option<int>>)
    ensures IsSubsequence(ValidProxies(proxies, replies), proxies)
    ensures IsSubsequence(AllAccepted(ValidProxies(proxies, replies)), Verdicts(proxies, replies))
    ensures forall i :: 0 <= i < |ValidProxies(proxies, replies)| ==>
      WellFormed(ValidProxies(proxies, replies)[i]) && ProxyArgument(Some(ValidProxies(proxies, replies)[i])).Some?
    ensures forall i :: 0 <= i < |proxies| && ValidateProxy(proxies[i], ReplyAt(replies, i)) ==>
      proxies[i] in ValidProxies(proxies, replies)
    ensures |ValidProxies(proxies, replies)| == AcceptedCount(proxies, replies)
  {
    ValidProxiesInOrder(proxies, replies);
    ValidProxiesByVerdict(proxies, replies);
    ValidProxiesKeepsAccepted(proxies, replies);
  }

  lemma {:induction false} ValidProxiesByVerdict(proxies: seq<string>, replies: seq<Option<int>>)
    ensures IsSubsequence(AllAccepted(ValidProxies(proxies, replies)), Verdicts(proxies, replies))
    decreases |proxies|
  {
    if proxies != [] {
      var n := |proxies| - 1;
      var init := proxies[..n];
      ValidProxiesByVerdict(init, replies);
      var v := ValidProxies(init, replies);
      var p := Verdicts(proxies, replies);
      assert p[..|p| - 1] == Verdicts(init, replies);
      if ValidateProxy(proxies[n], ReplyAt(replies, n)) {
        assert ValidProxies(proxies, replies) == v + [proxies[n]];
        var a := AllAccepted(v + [proxies[n]]);
        assert a[..|a| - 1] == AllAccepted(v);
        assert a[|a| - 1] == p[|p| - 1];
      } else {
        assert ValidProxies(proxies, replies) == v;
      }
    }
  }

  lemma {:induction false} ValidProxiesInOrder(proxies: seq<string>, replies: seq<Option<int>>)
    ensures IsSubsequence(ValidProxies(proxies, replies), proxies)
    ensures forall i :: 0 <= i < |ValidProxies(proxies, replies)| ==>
      WellFormed(ValidProxies(proxies, replies)[i]) && ProxyArgument(Some(ValidProxies(proxies, replies)[i])).Some?
    decreases |proxies|
  {
    if proxies != [] {
      var n := |proxies| - 1;
      ValidProxiesInOrder(proxies[..n], replies);
      var v := ValidProxies(proxies[..n], replies);
      assert proxies[..|proxies| - 1] == proxies[..n];
      if ValidateProxy(proxies[n], ReplyAt(replies, n)) {
        var r := v + [proxies[n]];
        assert ValidProxies(proxies, replies) == r;
        assert r[..|r| - 1] == v && r[|r| - 1] == proxies[|proxies| - 1];
      } else {
        assert ValidProxies(proxies, replies) == v;
      }
    }
  }

  lemma {:induction false} ValidProxiesKeepsAccepted(proxies: seq<string>, replies: seq<Option<int>>)
    ensures forall i :: 0 <= i < |proxies| && ValidateProxy(proxies[i], ReplyAt(replies, i)) ==>
      proxies[i] in ValidProxies(proxies, replies)
    ensures |ValidProxies(proxies, replies)| == AcceptedCount(proxies, replies)
    decreases |proxies|
  {
    if proxies != [] {
      var n := |proxies| - 1;
      var init := proxies[..n];
      ValidProxiesKeepsAccepted(init, replies);
      var v := ValidProxies(init, replies);
      assert ValidProxies(proxies, replies)
             == v + (if ValidateProxy(proxies[n], ReplyAt(replies, n)) then [proxies[n]] else []);
      forall i | 0 <= i < |proxies| && ValidateProxy(proxies[i], ReplyAt(replies, i))
        ensures proxies[i] in ValidProxies(proxies, replies)
      {
        if i < n {
          assert proxies[i] == init[i];
          assert proxies[i] in v;
        }
      }
    }
  }

  /** The loop of `load_proxies` that keeps each proxy `validate_proxy` accepts. */
  method ValidateAll(proxies: seq<string>, replies: seq<Option<int>>) returns (valid: seq<string>)
    ensures valid == ValidProxies(proxies, replies)
  {
    valid := [];
    for i := 0 to |proxies|
      invariant valid == ValidProxies(proxies[..i], replies)
    {
      assert proxies[..i + 1][..i] == proxies[..i];
      if ValidateProxy(proxies[i], ReplyAt(replies, i)) {
        valid := valid + [proxies[i]];
      }
    }
    assert proxies[..|proxies|] == proxies;
  }
}
