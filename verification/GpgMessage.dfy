/** An encrypted OpenPGP message, binary or armored. */
module GpgMessage {
  import opened Wrappers
  import opened Octets
  import Armor
  import ArmorForm
  import Lines
  import OpenPgp

  predicate Accepted(data: seq<Octet>) {
    if Armor.Begin(true) <= data then
      Armor.Unarmor(data, true).Some? && OpenPgp.Scan(Armor.Unarmor(data, true).value, 0)
    else OpenPgp.Scan(data, 0)
  }

  method Accepts(data: seq<Octet>) returns (accepted: bool)
    ensures accepted == Accepted(data)
  {
    hide Armor.Unarmor, OpenPgp.Scan, Armor.Begin;
    var binary := data;
    if Armor.Begin(true) <= data {
      var unarmored := Armor.Read(data, true);
      if unarmored.None? { return false; }
      binary := unarmored.value;
    }
    accepted := OpenPgp.GpgContainer(binary);
  }

  lemma PrintedStarts(packets: seq<OpenPgp.Framed>)
    requires OpenPgp.EncryptedMessage(packets, 0)
    ensures OpenPgp.PrintAll(packets) != [] && OpenPgp.PrintAll(packets)[0] >= 128
  {
    var p := packets[0];
    OpenPgp.PrintPacketThen(p.tag, p.body, p.form, OpenPgp.PrintAll(packets[1..]));
  }

  lemma BeginStarts()
    ensures Armor.Begin(true) != [] && Armor.Begin(true)[0] < 128
  {
  }

  /**
   * Every message of one to 128 session-key packets and one protected data packet is accepted in
   * binary; in armor, with or without headers, it is accepted exactly when the checksum is absent
   * or its own.
   */
  lemma PrintedMessage(packets: seq<OpenPgp.Framed>, headers: seq<seq<Octet>>, crc: Option<seq<Octet>>, crlf: bool, blank: nat)
    requires OpenPgp.EncryptedMessage(packets, 0) && Armor.AllHeaders(headers) && (crc.Some? ==> |crc.value| == 3)
    ensures var data := OpenPgp.PrintAll(packets);
            && Accepted(data)
            && (Accepted(Armor.Print(data, true, headers, crc, crlf, blank)) <==> crc.None? || Armor.ChecksumOf(data) == crc.value)
  {
    var data := OpenPgp.PrintAll(packets);
    PrintedStarts(packets);
    BeginStarts();
    OpenPgp.ScanPrinted(packets, 0);
    Armor.UnarmorPrinted(data, true, headers, crc, crlf, blank);
    Armor.PrintStarts(data, true, headers, crc, crlf, blank);
    hide Armor.Unarmor, Armor.Print, OpenPgp.Scan, OpenPgp.PrintAll, Armor.Begin, Armor.ChecksumOf, OpenPgp.EncryptedMessage;
  }

  /**
   * What is accepted, with neither reader named: the packets of an encrypted message, or, for data
   * that starts with the label, lines that armor such packets.
   */
  lemma AcceptedIff(data: seq<Octet>)
    ensures Accepted(data) <==>
            if ArmorForm.BeginLine(true) <= data then
              exists content: seq<Octet> ::
                ArmorForm.Armored(Armor.DropEmpty(Lines.Split(Lines.UnixEnds(data))), true, content) && OpenPgp.Message(content)
            else OpenPgp.Message(data)
  {
    hide Armor.Unarmor, OpenPgp.Scan, OpenPgp.Message, ArmorForm.Armored, Armor.Begin, ArmorForm.BeginLine;
    ArmorForm.LabelLines(true);
    OpenPgp.MessageIff(data);
    forall content: seq<Octet> ensures Armor.Unarmor(data, true) == Some(content) <==>
        ArmorForm.Armored(Armor.DropEmpty(Lines.Split(Lines.UnixEnds(data))), true, content)
    {
      ArmorForm.UnarmorIff(data, true, content);
    }
    if Armor.Unarmor(data, true).Some? { OpenPgp.MessageIff(Armor.Unarmor(data, true).value); }
  }
}
