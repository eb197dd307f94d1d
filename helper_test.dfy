/** The package's unit test for the container-name parser, as written and as intended
    (internal/misc/helper_test.go). */
module HelperTest {
  import opened Wrappers
  import opened Text
  import opened Uuids
  import opened Types
  import opened Misc

  /** The package test hands the parser its case's name instead of its input: the name has no
      '-', so it is one part and the parse fails where the test expects a success. */
  lemma TestCallAsWritten()
    ensures ParseContainerIdentity("", "parse deployment container name").Err?
  {
    SplitNoSeparator("parse deployment container name", '-');
  }

  lemma HexOfFour(a: byte, b: byte, c: byte, d: byte)
    ensures Hex([a, b, c, d]) == ByteHex(a) + ByteHex(b) + ByteHex(c) + ByteHex(d)
  {
    assert [d][1..] == [];
    assert Hex([d]) == ByteHex(d) + Hex([]);
    assert [c, d][1..] == [d];
    assert Hex([c, d]) == ByteHex(c) + Hex([d]);
    assert [b, c, d][1..] == [c, d];
    assert Hex([b, c, d]) == ByteHex(b) + Hex([c, d]);
    assert [a, b, c, d][1..] == [b, c, d];
  }

  const TestDeploymentId: Uuid :=
    [0x58, 0x2e, 0xf9, 0xe6, 0xec, 0x2d, 0x45, 0x2b, 0xb0, 0x81, 0x6d, 0xc7, 0x04, 0xcb, 0x29, 0xa3]

  /** The bytes of the test's deployment id, four at a time, print as the test's hex string. */
  lemma TestIdHex(u: Uuid)
    requires u == TestDeploymentId
    ensures Hex(u) == "582ef9e6" + "ec2d452b" + "b0816dc7" + "04cb29a3"
  {
    var g0, g1, g2, g3 := u[..4], u[4..8], u[8..12], u[12..];
    TestIdGroup0(g0);
    TestIdGroup1(g1);
    TestIdGroup2(g2);
    TestIdGroup3(g3);
    HexAppend(g0, g1);
    HexAppend(g0 + g1, g2);
    HexAppend(g0 + g1 + g2, g3);
    assert u == g0 + g1 + g2 + g3;
  }

  lemma TestIdGroup0(g: seq<byte>)
    requires g == [0x58, 0x2e, 0xf9, 0xe6]
    ensures Hex(g) == "582ef9e6"
  {
    HexOfFour(g[0], g[1], g[2], g[3]);
    assert g == [g[0], g[1], g[2], g[3]];
    assert ByteHex(0x58) == "58";
    assert ByteHex(0x2e) == "2e";
    assert ByteHex(0xf9) == "f9";
    assert ByteHex(0xe6) == "e6";
  }

  lemma TestIdGroup1(g: seq<byte>)
    requires g == [0xec, 0x2d, 0x45, 0x2b]
    ensures Hex(g) == "ec2d452b"
  {
    HexOfFour(g[0], g[1], g[2], g[3]);
    assert g == [g[0], g[1], g[2], g[3]];
    assert ByteHex(0xec) == "ec";
    assert ByteHex(0x2d) == "2d";
    assert ByteHex(0x45) == "45";
    assert ByteHex(0x2b) == "2b";
  }

  lemma TestIdGroup2(g: seq<byte>)
    requires g == [0xb0, 0x81, 0x6d, 0xc7]
    ensures Hex(g) == "b0816dc7"
  {
    HexOfFour(g[0], g[1], g[2], g[3]);
    assert g == [g[0], g[1], g[2], g[3]];
    assert ByteHex(0xb0) == "b0";
    assert ByteHex(0x81) == "81";
    assert ByteHex(0x6d) == "6d";
    assert ByteHex(0xc7) == "c7";
  }

  lemma TestIdGroup3(g: seq<byte>)
    requires g == [0x04, 0xcb, 0x29, 0xa3]
    ensures Hex(g) == "04cb29a3"
  {
    HexOfFour(g[0], g[1], g[2], g[3]);
    assert g == [g[0], g[1], g[2], g[3]];
    assert ByteHex(0x04) == "04";
    assert ByteHex(0xcb) == "cb";
    assert ByteHex(0x29) == "29";
    assert ByteHex(0xa3) == "a3";
  }

  lemma ContainerNameOfFirstInstance(d: Deployment)
    requires d.environment == "s"
    ensures ContainerName(d, 0) == Hex(d.id) + "-s-0"
  {
    var h := Hex(d.id);
    assert IntToString(0) == "0";
    assert h + "-" + "s" + "-" + "0" == h + "-s-0";
  }

  /** The test's input parses to the identity it expects: deployment
      582ef9e6-ec2d-452b-b081-6dc704cb29a3, environment "s", instance 0. */
  lemma TestCallIntended(name: string)
    requires name == "582ef9e6" + "ec2d452b" + "b0816dc7" + "04cb29a3" + "-s-0"
    ensures ParseContainerIdentity("", name) == Ok(ContainerIdentity(TestDeploymentId, "s", 0, ""))
  {
    var u := TestDeploymentId;
    TestIdHex(u);
    var d := Deployment(u, u, "s", "", 0, "", "", "", Application(u, "", "", []));
    ContainerNameOfFirstInstance(d);
    ContainerNameRoundTrip("", d, 0);
  }
}
