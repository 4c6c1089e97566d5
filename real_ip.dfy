/**
 * The real-IP middleware (apps/common/middleware/real_ip.py): it stores the
 * client IP and a masked form of it on the request, and refuses requests from
 * an invalid IP unless DEBUG is on.
 *
 * Parsing and classifying an address (Python's `ipaddress.ip_address`) is a
 * parameter: a function from text to the parsed address, if the text is one.
 * The only thing the model relies on is what `ipaddress` guarantees about the
 * text of an IPv4 address: it is four dot-separated parts.
 */
module RealIp {
  import opened Wrappers
  import opened Strings

  datatype Version = V4 | V6

  /** The parts of an `ipaddress` object the middleware looks at. */
  datatype Address = Address(
    version: Version,
    isUnspecified: bool,
    isLoopback: bool,
    isMulticast: bool,
    isLinkLocal: bool,
    isReserved: bool)

  /** `ipaddress.ip_address` accepts an IPv4 address only in dotted-quad form. */
  ghost predicate ParserLaws(parse: string -> Option<Address>) {
    forall s :: parse(s).Some? && parse(s).value.version == V4 ==> |Split(s, '.')| == 4
  }

  /** `_is_valid_ip`: a parsable address that is none of the special-purpose kinds. */
  function IsValidIp(ip: Option<string>, parse: string -> Option<Address>): (valid: bool)
    ensures valid ==> ip.Some? && ip.value != "" && parse(ip.value).Some?
    ensures ip.Some? && ip.value != "" && parse(ip.value).Some? ==>
      (valid <==> var a := parse(ip.value).value;
                  !(a.isUnspecified || a.isLoopback || a.isMulticast || a.isLinkLocal || a.isReserved))
  {
    if ip.None? || ip.value == "" then false
    else match parse(ip.value)
      case None => false
      case Some(a) => !(a.isUnspecified || a.isLoopback || a.isMulticast || a.isLinkLocal || a.isReserved)
  }

  /** `_mask_ip`: first and last parts kept, the rest starred; "unknown" when there is nothing to mask. */
  function MaskIp(ip: Option<string>, parse: string -> Option<Address>): (masked: string)
    requires ParserLaws(parse)
    ensures ip.None? || ip.value == "" || parse(ip.value).None? ==> masked == "unknown"
  {
    if ip.None? || ip.value == "" then "unknown"
    else match parse(ip.value)
      case None => "unknown"
      case Some(a) =>
        if a.version == V4 then
          var parts := Split(ip.value, '.');
          parts[0] + ".*.*." + parts[3]
        else
          var parts := Split(ip.value, ':');
          parts[0] + ":*:*:*::" + parts[|parts| - 1]
  }

  /** "a.b.c.d" is masked to "a.*.*.d". */
  lemma MaskIpV4(a: string, b: string, c: string, d: string, parse: string -> Option<Address>)
    requires ParserLaws(parse)
    requires '.' !in a && '.' !in b && '.' !in c && '.' !in d
    requires var ip := Join('.', [a, b, c, d]); ip != "" && parse(ip).Some? && parse(ip).value.version == V4
    ensures MaskIp(Some(Join('.', [a, b, c, d])), parse) == a + ".*.*." + d
  {
    SplitJoin([a, b, c, d], '.');
  }

  /** An IPv6 address is masked to its first group, ":*:*:*::" and its last group. */
  lemma MaskIpV6(groups: seq<string>, parse: string -> Option<Address>)
    requires ParserLaws(parse)
    requires |groups| >= 1
    requires forall k :: 0 <= k < |groups| ==> ':' !in groups[k]
    requires var ip := Join(':', groups); ip != "" && parse(ip).Some? && parse(ip).value.version == V6
    ensures MaskIp(Some(Join(':', groups)), parse) == groups[0] + ":*:*:*::" + groups[|groups| - 1]
  {
    SplitJoin(groups, ':');
    MaskV6Split(Join(':', groups), groups, parse);
  }

  /** Masking an IPv6 address reads its first and last groups off its split. */
  lemma MaskV6Split(ip: string, groups: seq<string>, parse: string -> Option<Address>)
    requires ParserLaws(parse)
    requires ip != "" && parse(ip).Some? && parse(ip).value.version == V6
    requires Split(ip, ':') == groups
    ensures |groups| >= 1
    ensures MaskIp(Some(ip), parse) == groups[0] + ":*:*:*::" + groups[|groups| - 1]
  {
  }

  /** What the middleware leaves on the request, and whether it refuses it. */
  datatype Decision = Decision(realIp: Option<string>, obscuredIp: string, forbidden: bool)

  /** `SetRealIPMiddleware.__call__` for the client IP found by ipware. */
  function Decide(ip: Option<string>, debug: bool, parse: string -> Option<Address>): (d: Decision)
    requires ParserLaws(parse)
    ensures d.forbidden <==> !IsValidIp(ip, parse) && !debug
    ensures d.realIp.Some? <==> ip.Some? && ip.value != ""
    ensures d.realIp.Some? ==> d.realIp == ip && d.obscuredIp == MaskIp(ip, parse)
    ensures d.realIp.None? ==> d.obscuredIp == "unknown"
  {
    var realIp := if ip.Some? && ip.value != "" then ip else None;
    var obscured := if ip.Some? && ip.value != "" then MaskIp(ip, parse) else "unknown";
    Decision(realIp, obscured, !IsValidIp(ip, parse) && !debug)
  }

  /** A request that passes carries either a valid address or DEBUG is on. */
  lemma PassedRequestsAreValidOrDebug(ip: Option<string>, debug: bool, parse: string -> Option<Address>)
    requires ParserLaws(parse)
    requires !Decide(ip, debug, parse).forbidden
    ensures debug || (Decide(ip, debug, parse).realIp.Some? && parse(ip.value).Some?)
  {
  }
}
