/** The subsidiary mapping page: subsidiary accounts mapped onto group accounts, with status counts. */
module SubsidiaryMapping {
  import opened Lists

  datatype Status = Mapped | Pending | Unmapped

  datatype MappingRecord = MappingRecord(id: string, subsidiaryCode: string, subsidiaryName: string,
                                         subsidiary: string, groupCode: string, groupName: string,
                                         status: Status, lastUpdated: string)

  datatype GroupAccount = GroupAccount(code: string, name: string)

  /** `mockMappings`, the constant list the page shows. */
  function MockMappings(): seq<MappingRecord> {
    [ MappingRecord("1", "4110-MY", "Software Revenue - Malaysia", "Securemetric MY", "4110", "Software Sales", Mapped, "2026-01-15"),
      MappingRecord("2", "4111-MY", "Hardware Revenue - Malaysia", "Securemetric MY", "4120", "Hardware Sales", Mapped, "2026-01-15"),
      MappingRecord("3", "4100-SG", "Product Sales - Singapore", "Securemetric SG", "4110", "Software Sales", Mapped, "2026-01-10"),
      MappingRecord("4", "4200-SG", "Support Services - Singapore", "Securemetric SG", "4130", "Maintenance & Support", Mapped, "2026-01-10"),
      MappingRecord("5", "4150-ID", "Consulting Revenue - Indonesia", "Securemetric ID", "", "", Pending, "2026-01-20"),
      MappingRecord("6", "4999-VN", "Miscellaneous Income - Vietnam", "Securemetric VN", "", "", Unmapped, "2026-01-22") ]
  }

  /** `groupAccounts`, the options of the selector. */
  function GroupAccounts(): seq<GroupAccount> {
    [ GroupAccount("4110", "Software Sales"), GroupAccount("4120", "Hardware Sales"),
      GroupAccount("4130", "Maintenance & Support"), GroupAccount("4210", "Interest Income"),
      GroupAccount("4220", "Other Income") ]
  }

  datatype Stats = Stats(total: nat, mapped: nat, pending: nat, unmapped: nat)

  /** The number of records with status `s`: `filter(m => m.status === s).length`. */
  function CountOf(ms: seq<MappingRecord>, s: Status): (n: nat)
    ensures n <= |ms|
  {
    |Filter(ms, (m: MappingRecord) => m.status == s)|
  }

  /** `stats`. */
  function StatsOf(ms: seq<MappingRecord>): (st: Stats)
    ensures st.total == |ms|
    ensures st.mapped <= st.total && st.pending <= st.total && st.unmapped <= st.total
  {
    Stats(|ms|, CountOf(ms, Mapped), CountOf(ms, Pending), CountOf(ms, Unmapped))
  }

  lemma {:induction false} CountCons(m: MappingRecord, ms: seq<MappingRecord>, s: Status)
    ensures CountOf([m] + ms, s) == (if m.status == s then 1 else 0) + CountOf(ms, s)
  {
    FilterCons(m, ms, (r: MappingRecord) => r.status == s);
  }

  /** The three counts add up to the total, since every record has exactly one of the three statuses. */
  lemma {:induction false} CountsSumToTotal(ms: seq<MappingRecord>)
    ensures var st := StatsOf(ms); st.mapped + st.pending + st.unmapped == st.total
    decreases |ms|
  {
    if ms != [] {
      CountsSumToTotal(ms[1..]);
      assert [ms[0]] + ms[1..] == ms;
      CountCons(ms[0], ms[1..], Mapped);
      CountCons(ms[0], ms[1..], Pending);
      CountCons(ms[0], ms[1..], Unmapped);
    }
  }

  /** Example, on the sample data (`CountsSumToTotal` states the general rule): four mapped, one pending and one unmapped record. */
  lemma MockStats()
    ensures StatsOf(MockMappings()) == Stats(6, 4, 1, 1)
  {
  }

  /** The group-account cell: the mapped account, or a selector over the group accounts. */
  datatype GroupCell = Shown(code: string, name: string) | Selector(options: seq<GroupAccount>)

  datatype RowView = RowView(group: GroupCell, actionLabel: string)

  /** One table row: the group code and name appear exactly for Mapped records, every other record
      gets the selector; the action reads 'Edit' exactly for Mapped records and 'Map' otherwise. */
  function RowOf(m: MappingRecord): (v: RowView)
    ensures v.group.Shown? <==> m.status == Mapped
    ensures v.group.Shown? ==> v.group.code == m.groupCode && v.group.name == m.groupName
    ensures v.group.Selector? ==> v.group.options == GroupAccounts()
    ensures v.actionLabel == "Edit" <==> m.status == Mapped
    ensures v.actionLabel != "Edit" ==> v.actionLabel == "Map"
  {
    RowView(if m.status == Mapped then Shown(m.groupCode, m.groupName) else Selector(GroupAccounts()),
            if m.status == Mapped then "Edit" else "Map")
  }
}
