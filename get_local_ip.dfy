/**
 * The shareable-URL logic behind the QR code: a URL on this machine
 * ("localhost" or "127.0.0.1") is rewritten to the machine's LAN address
 * when one was found, and the address found must not be a loopback or
 * unspecified one.
 */
module LocalIp {
  import opened Wrappers
  import opened Text

  /** The WebRTC candidate filter: not "127.0.0.1" and not starting with "0.". */
  predicate AcceptCandidateIp(ip: string)
  {
    ip != "127.0.0.1" && !StartsWith(ip, "0.")
  }

  lemma AcceptanceExamples()
    ensures AcceptCandidateIp("192.168.1.10")
    ensures !AcceptCandidateIp("127.0.0.1")
    ensures !AcceptCandidateIp("0.0.0.0")
  {
    assert "192.168.1.10"[1] != "0."[1];
    assert "0.0.0.0"[..2] == "0.";
  }

  /** A candidate is refused exactly when it is the loopback address or lies in 0.0.0.0/8 as text ("0." first). */
  lemma AcceptCandidateIpMeans(ip: string)
    ensures AcceptCandidateIp(ip) <==> ip != "127.0.0.1" && !(|ip| >= 2 && ip[0] == '0' && ip[1] == '.')
  {
    if |ip| >= 2 {
      assert ip[..2] == [ip[0], ip[1]];
    }
  }

  /** `replaceLocalhostWithIP`: the first "localhost", then the first "127.0.0.1", becomes the address. */
  function ReplaceLocalhostWithIp(url: string, localIp: string): (r: string)
    ensures !Contains(url, "localhost") && !Contains(url, "127.0.0.1") ==> r == url
    ensures !Contains(url, "localhost") ==> r == ReplaceFirst(url, "127.0.0.1", localIp)
    ensures Contains(url, "localhost") ==> exists i ::
      && OccursAt(url, "localhost", i)
      && (forall j :: 0 <= j < i ==> !OccursAt(url, "localhost", j))
      && r == ReplaceFirst(url[..i] + localIp + url[i + 9..], "127.0.0.1", localIp)
  {
    ReplaceFirst(ReplaceFirst(url, "localhost", localIp), "127.0.0.1", localIp)
  }

  /** Only the first "localhost" is rewritten: a second one stays. */
  lemma OnlyFirstOccurrence()
    ensures ReplaceLocalhostWithIp("localhost/localhost", "10.0.0.2") == "10.0.0.2/localhost"
  {
    var s := "localhost/localhost";
    assert OccursAt(s, "localhost", 0);
    assert IndexOf(s, "localhost", 0) == Some(0);
    var t := "10.0.0.2/localhost";
    assert ReplaceFirst(s, "localhost", "10.0.0.2") == t;
    forall j | 0 <= j <= |t| - 9
      ensures !OccursAt(t, "127.0.0.1", j)
    {
      assert t[j + 2] != '7';
      assert t[j..j + 9][2] == t[j + 2];
    }
  }

  /**
   * `getShareableURL`: "" outside a browser; the current URL when it is not
   * local or when no address was found (`null` and "" are both falsy);
   * otherwise the rewritten URL. Whether a browser is present, the current
   * URL and the address WebRTC found are parameters.
   */
  function ShareableUrl(inBrowser: bool, currentUrl: string, localIp: Option<string>): (r: string)
    ensures !inBrowser ==> r == ""
    ensures inBrowser && !Contains(currentUrl, "localhost") && !Contains(currentUrl, "127.0.0.1") ==> r == currentUrl
    ensures inBrowser && (localIp.None? || localIp.value == "") ==> r == currentUrl
    ensures inBrowser && localIp.Some? && localIp.value != "" ==> r == ReplaceLocalhostWithIp(currentUrl, localIp.value)
  {
    if !inBrowser then ""
    else if !Contains(currentUrl, "localhost") && !Contains(currentUrl, "127.0.0.1") then currentUrl
    else match localIp
      case Some(ip) => if ip != "" then ReplaceLocalhostWithIp(currentUrl, ip) else currentUrl
      case None => currentUrl
  }
}
