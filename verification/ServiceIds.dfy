/** The IDs given to registered instances. */
module ServiceIds {

  /** A hex-encoded SHA-1 sum: forty characters. */
  type HexDigest = s: string | |s| == 40 witness "0000000000000000000000000000000000000000"

  /** The digest is a parameter: nothing is assumed about collisions. */
  type Digest = string -> HexDigest

  function ServiceId(sha1: Digest, name: string, addr: string): (id: string)
    ensures |id| == |name| + 13
    ensures name == id[..|id| - 13]
  {
    name + "-" + sha1(name + "-" + addr)[..12]
  }

  /** The suffix has a fixed length, so an ID determines the service name even
      when names contain dashes and digests collide. */
  lemma IdDeterminesName(sha1: Digest, name: string, addr: string, name': string, addr': string)
    requires ServiceId(sha1, name, addr) == ServiceId(sha1, name', addr')
    ensures name == name'
  {
    assert name == ServiceId(sha1, name, addr)[..|name|];
  }
}
