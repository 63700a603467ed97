/**
 The SpiderIID codec of CommonManager.go. A MetaDB row stores a resource under the user's name as
 "SP-XID:CSP-ID"; the driver-side ID is read back by cutting the text at its first ":" and then
 deleting every occurrence of the cut-off part, the ":" included.
 */
module IidCodec {
  import opened Strings

  datatype IID = IID(nameId: string, systemId: string)

  function Encode(xid: string, cspId: string): string { xid + ":" + cspId }

  /** getDriverIID, and makeDriverIID on the same text. */
  function GetDriverIID(spiderIId: IID): IID {
    var head := Split(spiderIId.systemId, ":")[0];
    IID(head, RemoveAll(spiderIId.systemId, head + ":"))
  }

  /** getDriverSystemId. */
  function GetDriverSystemId(spiderIId: IID): string {
    GetDriverIID(spiderIId).systemId
  }

  /** getUserIID. */
  function GetUserIID(spiderIId: IID): IID {
    IID(spiderIId.nameId, RemoveAll(spiderIId.systemId, Split(spiderIId.systemId, ":")[0] + ":"))
  }

  /** The pairs that survive being stored and read back. */
  predicate Readable(xid: string, cspId: string) {
    ':' !in xid && !Occurs(cspId, xid + ":")
  }

  /** getMSShortID: the last path element of an Azure resource ID, any other ID as it is. */
  function GetMSShortID(inId: string): string {
    if Occurs(inId, "/Microsoft.") then Last(Split(inId, "/")) else inId
  }

  /** getAWSNLBShortID: the load balancer's name inside its ARN, any other ID as it is. */
  function GetAWSNLBShortID(inId: string): string {
    if Occurs(inId, "loadbalancer/net/") then
      var parts := Split(inId, "loadbalancer/net/");
      if |parts| > 1 then Split(parts[1], "/")[0] else inId
    else inId
  }

  // ------------------------------------------------------------------ the round trip

  /** What the decoder computes on an encoded pair whose XID has no ":". */
  lemma DecodeEncoded(name: string, xid: string, cspId: string)
    requires ':' !in xid
    ensures GetDriverIID(IID(name, Encode(xid, cspId))) == IID(xid, RemoveAll(cspId, xid + ":"))
  {
    var s, p := Encode(xid, cspId), xid + ":";
    FirstChar(xid, ':', cspId);
    assert s == p + cspId;
    assert At(s, p, 0);
    assert s[..0] + RemoveAll(s[|p|..], p) == RemoveAll(cspId, p) by { assert s[|p|..] == cspId; }
  }

  /**
   A stored pair reads back unchanged exactly when the XID has no ":" and "XID:" does not occur in
   the CSP ID. Cutting and deleting is no plain inverse of the concatenation.
   */
  lemma RoundTrip(name: string, xid: string, cspId: string)
    ensures GetDriverIID(IID(name, Encode(xid, cspId))) == IID(xid, cspId) <==> Readable(xid, cspId)
  {
    if ':' !in xid {
      DecodeEncoded(name, xid, cspId);
    } else {
      var s := Encode(xid, cspId);
      var k :| 0 <= k < |xid| && xid[k] == ':';
      assert s[k..k + 1] == [s[k]];
      assert At(s, ":", k);
      assert Index(s, ":") <= k;
    }
  }

  /** The user-side view of a readable row: the user's name and the CSP ID. */
  lemma UserRoundTrip(name: string, xid: string, cspId: string)
    requires Readable(xid, cspId)
    ensures GetUserIID(IID(name, Encode(xid, cspId))) == IID(name, cspId)
    ensures GetDriverSystemId(IID(name, Encode(xid, cspId))) == cspId
  {
    RoundTrip(name, xid, cspId);
  }

  /** No two readable pairs share one stored text. */
  lemma EncodeInjective(x: string, c: string, x': string, c': string)
    requires Readable(x, c) && Readable(x', c') && Encode(x, c) == Encode(x', c')
    ensures x == x' && c == c'
  {
    RoundTrip("", x, c);
    RoundTrip("", x', c');
  }

  // ------------------------------------------------------------------ what the Register calls store

  /** The short ID of an Azure resource ID is what stands behind its last "/"; any other ID is its own. */
  lemma ShortIdIsLast(id: string) returns (k: nat)
    ensures k <= |id| && GetMSShortID(id) == id[k..]
    ensures if Occurs(id, "/Microsoft.") then k > 0 && id[k - 1] == '/' && '/' !in GetMSShortID(id) else k == 0
  {
    if Occurs(id, "/Microsoft.") {
      HasSlash(id, "/Microsoft.");
      k := BehindLastSlash(id);
    } else {
      k := 0;
    }
  }

  lemma HasSlash(id: string, p: string)
    requires Occurs(id, p) && '/' in p
    ensures '/' in id
  {
    if '/' !in id { AbsentChar(id, p, '/'); }
  }

  lemma BehindLastSlash(id: string) returns (k: nat)
    requires '/' in id
    ensures 0 < k <= |id| && Last(Split(id, "/")) == id[k..] && id[k - 1] == '/' && '/' !in id[k..]
  {
    LastPiece(id, "/");
    MorePieces(id, "/") by { OccursChar(id, '/'); }
    k := AtItsEnd(id, Split(id, "/"));
  }

  lemma AtItsEnd(id: string, parts: seq<string>) returns (k: nat)
    requires EndsWithLast(id, "/", parts) && |parts| > 1
    ensures 0 < k <= |id| && Last(parts) == id[k..] && id[k - 1] == '/' && '/' !in id[k..]
  {
    k := |id| - |Last(parts)|;
    OccursChar(Last(parts), '/');
    assert id[k - 1] == id[k - 1..k][0];
  }

  lemma ShortIdChars(id: string)
    requires ':' !in id
    ensures ':' !in GetMSShortID(id)
  {
    if ':' in GetMSShortID(id) {
      SplitChars(id, "/", |Split(id, "/")| - 1, ':');
    }
  }

  /** Register stores "short ID:CSP ID". Every CSP ID without ":" reads back. */
  lemma RegisterRoundTrip(name: string, cspId: string)
    requires ':' !in cspId
    ensures GetDriverIID(IID(name, Encode(GetMSShortID(cspId), cspId))) == IID(GetMSShortID(cspId), cspId)
  {
    ShortIdChars(cspId);
    AbsentChar(cspId, GetMSShortID(cspId) + ":", ':');
    RoundTrip(name, GetMSShortID(cspId), cspId);
  }

  /** The shape of an AWS network load balancer's ARN: prefix, name, hash. */
  function Arn(prefix: string, name: string, hash: string): string {
    prefix + "loadbalancer/net/" + name + "/" + hash
  }

  /** An ARN keeps its slashes to the places the format gives them. */
  predicate ArnParts(prefix: string, name: string, hash: string) {
    '/' !in prefix && '/' !in name && '/' !in hash && ':' !in name && ':' !in hash
  }

  /** The short name taken out of an ARN is the load balancer's name. */
  lemma ArnShortId(prefix: string, name: string, hash: string)
    requires ArnParts(prefix, name, hash)
    ensures GetAWSNLBShortID(Arn(prefix, name, hash)) == name
  {
    var s, sep := Arn(prefix, name, hash), "loadbalancer/net/";
    var rest := name + "/" + hash;
    assert s == prefix + sep + rest;
    assert At(s, sep, |prefix|);
    forall i | 0 <= i < |prefix| ensures !At(s, sep, i) {
      NotAt(s, sep, i, 12);
    }
    assert s[|prefix| + |sep|..] == rest;
    forall i | 0 <= i <= |rest| ensures !At(rest, sep, i) {
      NotAt(rest, sep, i, if i + 12 == |name| then 16 else 12);
    }
    FirstChar(name, '/', hash);
  }

  /** "name:" can only stand in the prefix of the name's ARN. */
  lemma ArnOccurs(prefix: string, name: string, hash: string)
    requires ArnParts(prefix, name, hash)
    ensures Occurs(Arn(prefix, name, hash), name + ":") <==> Occurs(prefix, name + ":")
  {
    var arn, p := Arn(prefix, name, hash), name + ":";
    forall i | 0 <= i <= |arn| ensures At(arn, p, i) <==> At(prefix, p, i) {
      if i + |p| <= |prefix| {
        assert arn[i..i + |p|] == prefix[i..i + |p|];
      } else {
        NotAt(arn, p, i, |name|);
      }
    }
  }

  /**
   RegisterNLB stores an AWS load balancer as "name:ARN". The row reads back exactly when no field
   of the ARN's prefix ends in the load balancer's name.
   */
  lemma NlbRoundTrip(user: string, prefix: string, name: string, hash: string)
    requires ArnParts(prefix, name, hash) && !Occurs(Arn(prefix, name, hash), "/Microsoft.")
    ensures var arn := Arn(prefix, name, hash);
            GetDriverIID(IID(user, Encode(GetAWSNLBShortID(GetMSShortID(arn)), arn))) == IID(name, arn)
            <==> !Occurs(prefix, name + ":")
  {
    ArnShortId(prefix, name, hash);
    RoundTrip(user, name, Arn(prefix, name, hash));
    ArnOccurs(prefix, name, hash);
  }

  /** A load balancer called "aws" is one whose row does not read back. */
  lemma NlbNamedAws(user: string, region: string, hash: string)
    ensures var arn := Arn("arn:" + "aws:" + region, "aws", hash);
            GetDriverIID(IID(user, Encode("aws", arn))) != IID("aws", arn)
  {
    var arn := Arn("arn:" + "aws:" + region, "aws", hash);
    assert arn[4..8] == "aws" + ":";
    assert At(arn, "aws" + ":", 4);
    RoundTrip(user, "aws", arn);
  }
}
