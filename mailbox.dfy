/**
 * Mailbox set-up (Mailbox): the two mailbox sync managers of a slave are
 * programmed from its SII EEPROM, either for normal operation or for the
 * bootstrap mailbox. Each EEPROM entry packs a start address in its low
 * word and a length in its high word. The EEPROM read is a parameter; the
 * final write of the mailbox configuration to the slave is left out.
 */
module Mailbox {
  import JavaMath
  import opened EtherCatHelper

  /** SII word addresses of the mailbox entries, from the SOEM headers. */
  const SiiBootRxMailbox: int := 0x0014
  const SiiBootTxMailbox: int := 0x0016
  const SiiRxMailbox: int := 0x0018
  const SiiTxMailbox: int := 0x001A

  datatype MailboxConfiguration = Boot | Default

  /** LO_WORD: the low 16 bits. */
  function LoWord(l: int): (r: int)
    ensures 0 <= r < 0x1_0000
  {
    l % 0x1_0000
  }

  /** HI_WORD: the value shifted right by 16 (an arithmetic shift, i.e. floor division), cast to an int. */
  function HiWord(l: int): (r: int)
    ensures JavaMath.IsInt32(r)
  {
    JavaMath.ToInt32(l / 0x1_0000)
  }

  /** Two words packed into one 32-bit EEPROM entry. */
  function MakeEntry(hi: int, lo: int): int
  {
    hi * 0x1_0000 + lo
  }

  /** Splitting a 32-bit entry into its words loses nothing. */
  lemma SplitPack(l: int)
    requires 0 <= l < JavaMath.Two32
    ensures 0 <= HiWord(l) < 0x1_0000 && MakeEntry(HiWord(l), LoWord(l)) == l
  {
  }

  /** Two words packed into an entry split back into the same words. */
  lemma PackSplit(hi: int, lo: int)
    requires 0 <= hi < 0x1_0000 && 0 <= lo < 0x1_0000
    ensures HiWord(MakeEntry(hi, lo)) == hi && LoWord(MakeEntry(hi, lo)) == lo
  {
  }

  /** The SII words read: the bootstrap mailbox entries for Boot, the standard ones otherwise. */
  function MailboxWords(config: MailboxConfiguration): (r: (int, int))
    ensures config == Boot ==> r == (SiiBootRxMailbox, SiiBootTxMailbox)
    ensures config == Default ==> r == (SiiRxMailbox, SiiTxMailbox)
  {
    if config == Boot then (SiiBootRxMailbox, SiiBootTxMailbox) else (SiiRxMailbox, SiiTxMailbox)
  }

  /**
   * The slave record with its mailboxes set from the receive entry `rx`
   * and the transmit entry `tx`: SM0 and the write mailbox (mbx_wo, mbx_l)
   * take the start address and length of `rx`, SM1 and the read mailbox
   * (mbx_ro, mbx_rl) those of `tx`; nothing else changes.
   */
  function WithMailboxes(slave: SlaveEntry, rx: int, tx: int): (r: SlaveEntry)
    requires slave.WellFormed()
    ensures r.WellFormed()
  {
    slave.(
      sm := slave.sm[0 := slave.sm[0].(startAddr := LoWord(rx), smLength := HiWord(rx))]
                    [1 := slave.sm[1].(startAddr := LoWord(tx), smLength := HiWord(tx))],
      mbxWo := LoWord(rx), mbxL := HiWord(rx), mbxRo := LoWord(tx), mbxRl := HiWord(tx))
  }

  /**
   * For 32-bit EEPROM entries the mailbox records hold the entries
   * exactly: each sync manager's start and length pack back into the entry
   * read for it, the mailbox fields agree with the sync managers, and the
   * other sync managers and the flags are untouched.
   */
  lemma WithMailboxesHoldsEntries(slave: SlaveEntry, rx: int, tx: int)
    requires slave.WellFormed()
    requires 0 <= rx < JavaMath.Two32 && 0 <= tx < JavaMath.Two32
    ensures var r := WithMailboxes(slave, rx, tx);
      MakeEntry(r.sm[0].smLength, r.sm[0].startAddr) == rx &&
      MakeEntry(r.sm[1].smLength, r.sm[1].startAddr) == tx &&
      r.mbxWo == r.sm[0].startAddr && r.mbxL == r.sm[0].smLength &&
      r.mbxRo == r.sm[1].startAddr && r.mbxRl == r.sm[1].smLength &&
      r.sm[2..] == slave.sm[2..] && r.sm[0].smFlags == slave.sm[0].smFlags && r.sm[1].smFlags == slave.sm[1].smFlags &&
      r.configAdr == slave.configAdr && r.fmmu == slave.fmmu
  {
    var r := WithMailboxes(slave, rx, tx);
    assert r.sm[0].startAddr == LoWord(rx) && r.sm[0].smLength == HiWord(rx);
    assert r.sm[1].startAddr == LoWord(tx) && r.sm[1].smLength == HiWord(tx);
    SplitPack(rx);
    SplitPack(tx);
  }

  /**
   * setup: reads the receive and transmit entries chosen by the
   * configuration (`eeprom(a)` is the EEPROM entry at word address a) and
   * sets the mailboxes from them.
   */
  method Setup(slave: SlaveEntry, config: MailboxConfiguration, eeprom: int -> int) returns (r: SlaveEntry)
    requires slave.WellFormed()
    ensures r.WellFormed()
    ensures r == WithMailboxes(slave, eeprom(MailboxWords(config).0), eeprom(MailboxWords(config).1))
  {
    var rxMailbox, txMailbox;
    if config == Boot {
      rxMailbox, txMailbox := SiiBootRxMailbox, SiiBootTxMailbox;
    } else {
      rxMailbox, txMailbox := SiiRxMailbox, SiiTxMailbox;
    }
    var sm0 := SmAt(slave, 0).value;
    var sm1 := SmAt(slave, 1).value;

    var data := eeprom(rxMailbox);
    sm0 := sm0.(startAddr := LoWord(data), smLength := HiWord(data));
    r := slave.(mbxWo := LoWord(data), mbxL := HiWord(data));

    data := eeprom(txMailbox);
    sm1 := sm1.(startAddr := LoWord(data), smLength := HiWord(data));
    r := r.(mbxRo := LoWord(data), mbxRl := HiWord(data));
    r := r.(sm := r.sm[0 := sm0][1 := sm1]);
  }
}
