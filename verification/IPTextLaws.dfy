/** The laws assumed of IP text can be met: an instance that prints each address byte
    as two letters and shows a v4-mapped address as its IPv4 part. */
module IPTextLaws {
  import opened Basics
  import opened TrojanWire

  const LETTER: Byte := 65

  function Letter(ip: Bytes, i: nat): Byte
    requires i < 2 * |ip|
  {
    var b := ip[i / 2];
    LETTER + if i % 2 == 0 then b / 16 else b % 16
  }

  function Letters(ip: Bytes): (text: Bytes)
    ensures |text| == 2 * |ip| && forall i :: 0 <= i < |text| ==> text[i] == Letter(ip, i)
  {
    seq(2 * |ip|, i requires 0 <= i < 2 * |ip| => Letter(ip, i))
  }

  lemma LettersInjective(a: Bytes, b: Bytes)
    requires Letters(a) == Letters(b)
    ensures a == b
  {
    forall i | 0 <= i < |a| ensures a[i] == b[i] {
      assert Letters(a)[2 * i] == Letters(b)[2 * i] && Letters(a)[2 * i + 1] == Letters(b)[2 * i + 1];
    }
  }

  function Show(ip: Bytes): Bytes { if Mapped(ip) then Letters(ip[12..]) else Letters(ip) }

  ghost function Parse(text: Bytes): Option<Bytes> {
    if exists ip :: Canonical(ip) && Letters(ip) == text then
      var ip :| Canonical(ip) && Letters(ip) == text;
      Some(ip)
    else None
  }

  lemma ParseShown(ip: Bytes)
    requires Canonical(ip)
    ensures Parse(Letters(ip)) == Some(ip)
  {
    var other :| Canonical(other) && Letters(other) == Letters(ip) && Parse(Letters(ip)) == Some(other);
    LettersInjective(other, ip);
  }

  lemma NoPercent(ip: Bytes)
    ensures PERCENT !in Letters(ip)
  {
    forall i | 0 <= i < 2 * |ip| ensures Letters(ip)[i] != PERCENT {
      assert Letter(ip, i) >= LETTER;
    }
  }

  /** Some text form satisfies all the laws, and does not take "a b" for an address. */
  lemma TextLawsMet()
    ensures exists t: IPText :: TextLaws(t) && t.parse([97, 32, 98]).None?
  {
    ghost var t := IPText(Show, x => Parse(x));
    forall ip | Canonical(ip) ensures t.parse(t.show(ip)) == Some(ip) && PERCENT !in t.show(ip) {
      ParseShown(ip);
      NoPercent(ip);
    }
    forall ip | Mapped(ip) ensures t.show(ip) == t.show(ip[12..]) {}
    assert TextLaws(t);
    assert forall ip :: Letters(ip) == [97, 32, 98] ==> |Letters(ip)| == 3;
    assert t.parse([97, 32, 98]).None?;
  }
}
