/** The static schema registry of src/lib/db-mock.ts: three tables with their
    columns and sample rows, and `columnDescriptionsForAI`, which turns a list
    of table names into a "table.column" -> description map. */
module DbMock {
  import opened Common

  datatype TableDef = TableDef(name: string, description: string)
  datatype ColumnDef = ColumnDef(name: string, sqlType: string, description: string)

  type Registry = map<string, seq<ColumnDef>>

  const Tables: seq<TableDef> := [
    TableDef("users", "Stores user information"),
    TableDef("products", "Stores product details"),
    TableDef("orders", "Stores customer orders")
  ]

  const UserColumns: seq<ColumnDef> := [
    ColumnDef("id", "INT", "Unique identifier for the user"),
    ColumnDef("name", "VARCHAR", "Name of the user"),
    ColumnDef("email", "VARCHAR", "Email address of the user"),
    ColumnDef("signup_date", "DATE", "Date the user signed up")
  ]

  const ProductColumns: seq<ColumnDef> := [
    ColumnDef("product_id", "INT", "Unique identifier for the product"),
    ColumnDef("product_name", "VARCHAR", "Name of the product"),
    ColumnDef("price", "DECIMAL", "Price of the product"),
    ColumnDef("stock_quantity", "INT", "Available stock of the product")
  ]

  const OrderColumns: seq<ColumnDef> := [
    ColumnDef("order_id", "INT", "Unique identifier for the order"),
    ColumnDef("user_id", "INT", "ID of the user who placed the order"),
    ColumnDef("product_id", "INT", "ID of the product ordered"),
    ColumnDef("order_date", "DATE", "Date the order was placed"),
    ColumnDef("quantity", "INT", "Quantity of the product ordered")
  ]

  /** The column registry, keyed by table name. */
  const Columns: Registry := map["users" := UserColumns, "products" := ProductColumns, "orders" := OrderColumns]

  function UserRow(id: int, name: string, email: string, signupDate: string): Row
  {
    [Field("id", Int(id)), Field("name", Text(name)), Field("email", Text(email)),
     Field("signup_date", Text(signupDate))]
  }

  function ProductRow(id: int, name: string, priceHundredths: int, stock: int): Row
  {
    [Field("product_id", Int(id)), Field("product_name", Text(name)),
     Field("price", Decimal(priceHundredths)), Field("stock_quantity", Int(stock))]
  }

  function OrderRow(id: int, userId: int, productId: int, date: string, quantity: int): Row
  {
    [Field("order_id", Int(id)), Field("user_id", Int(userId)), Field("product_id", Int(productId)),
     Field("order_date", Text(date)), Field("quantity", Int(quantity))]
  }

  const UserData: seq<Row> := [
    UserRow(1, "Alice Smith", "alice@example.com", "2023-01-15"),
    UserRow(2, "Bob Johnson", "bob@example.com", "2023-02-20"),
    UserRow(3, "Charlie Brown", "charlie@example.com", "2023-03-10"),
    UserRow(4, "Diana Prince", "diana@example.com", "2023-04-05")
  ]

  const ProductData: seq<Row> := [
    ProductRow(101, "Laptop Pro", 120000, 50),
    ProductRow(102, "Wireless Mouse", 2550, 200),
    ProductRow(103, "Mechanical Keyboard", 7500, 150),
    ProductRow(104, "4K Monitor", 45000, 75)
  ]

  const OrderData: seq<Row> := [
    OrderRow(1001, 1, 101, "2023-04-01", 1),
    OrderRow(1002, 2, 102, "2023-04-02", 2),
    OrderRow(1003, 1, 103, "2023-04-03", 1),
    OrderRow(1004, 3, 104, "2023-04-05", 1),
    OrderRow(1005, 4, 101, "2023-04-06", 1)
  ]

  /** The sample rows, keyed by table name. */
  const Data: map<string, seq<Row>> := map["users" := UserData, "products" := ProductData, "orders" := OrderData]

  /* ---------------- the description map ---------------- */

  /** The key `columnDescriptionsForAI` files a column under. */
  function KeyOf(table: string, c: ColumnDef): string
  {
    table + "." + c.name
  }

  /** What the inner loop writes for one table, column by column (a later
      write to the same key wins). */
  function ColumnEntries(table: string, cols: seq<ColumnDef>): map<string, string>
  {
    if |cols| == 0 then map[]
    else ColumnEntries(table, cols[..|cols| - 1])[KeyOf(table, cols[|cols| - 1]) := cols[|cols| - 1].description]
  }

  /** What one table name contributes: nothing when the registry has no entry. */
  function TableEntries(reg: Registry, table: string): map<string, string>
  {
    if table in reg then ColumnEntries(table, reg[table]) else map[]
  }

  /** The map built for a list of table names, name by name. */
  function Descriptions(reg: Registry, names: seq<string>): map<string, string>
  {
    if |names| == 0 then map[]
    else Descriptions(reg, names[..|names| - 1]) + TableEntries(reg, names[|names| - 1])
  }

  /** The two nested loops of `columnDescriptionsForAI`, over a given registry. */
  method FillDescriptions(reg: Registry, tableNames: seq<string>) returns (descriptions: map<string, string>)
    ensures descriptions == Descriptions(reg, tableNames)
  {
    descriptions := map[];
    var i := 0;
    while i < |tableNames|
      invariant 0 <= i <= |tableNames|
      invariant descriptions == Descriptions(reg, tableNames[..i])
    {
      var tableName := tableNames[i];
      assert tableNames[..i + 1][..i] == tableNames[..i];
      if tableName in reg {
        var cols := reg[tableName];
        ghost var before := descriptions;
        var j := 0;
        while j < |cols|
          invariant 0 <= j <= |cols|
          invariant descriptions == before + ColumnEntries(tableName, cols[..j])
        {
          assert cols[..j + 1][..j] == cols[..j];
          descriptions := descriptions[KeyOf(tableName, cols[j]) := cols[j].description];
          j := j + 1;
        }
        assert cols[..j] == cols;
      } else {
        assert descriptions == descriptions + TableEntries(reg, tableName);
      }
      i := i + 1;
    }
    assert tableNames[..i] == tableNames;
  }

  /** `columnDescriptionsForAI`: the description map for the constant registry. */
  method ColumnDescriptionsForAI(tableNames: seq<string>) returns (descriptions: map<string, string>)
    ensures descriptions == Descriptions(Columns, tableNames)
    ensures tableNames == [] ==> descriptions == map[]
  {
    descriptions := FillDescriptions(Columns, tableNames);
  }

  /* ---------------- properties of the description map ---------------- */

  /** Table names free of dots, and distinct column names within each table. */
  ghost predicate WellFormed(reg: Registry)
  {
    && (forall t :: t in reg ==> '.' !in t)
    && (forall t, i, j :: t in reg && 0 <= i < j < |reg[t]| ==> reg[t][i].name != reg[t][j].name)
  }

  /** The first dot of "t.n" sits right after `t` when `t` has none. */
  lemma FirstDot(t: string, n: string)
    requires '.' !in t
    ensures (t + "." + n)[|t|] == '.'
    ensures forall i :: 0 <= i < |t| ==> (t + "." + n)[i] != '.'
  {
    forall i | 0 <= i < |t|
      ensures (t + "." + n)[i] != '.'
    {
      assert (t + "." + n)[i] == t[i];
    }
  }

  /** A key splits back into its table and column name at the first dot. */
  lemma KeySplit(t1: string, n1: string, t2: string, n2: string)
    requires '.' !in t1 && '.' !in t2
    requires t1 + "." + n1 == t2 + "." + n2
    ensures t1 == t2 && n1 == n2
  {
    var k := t1 + "." + n1;
    FirstDot(t1, n1);
    FirstDot(t2, n2);
    assert t1 == k[..|t1|] == t2;
    assert n1 == k[|t1| + 1..] == n2;
  }

  lemma {:induction false} ColumnEntriesKeys(table: string, cols: seq<ColumnDef>, k: string)
    ensures k in ColumnEntries(table, cols) <==> exists c :: c in cols && k == KeyOf(table, c)
  {
    if |cols| > 0 {
      var init := cols[..|cols| - 1];
      ColumnEntriesKeys(table, init, k);
      assert cols == init + [cols[|cols| - 1]];
      if k in ColumnEntries(table, cols) && k != KeyOf(table, cols[|cols| - 1]) {
        var c :| c in init && k == KeyOf(table, c);
        assert c in cols;
      }
    }
  }

  lemma {:induction false} ColumnEntriesValue(table: string, cols: seq<ColumnDef>, i: nat)
    requires i < |cols|
    requires forall a, b :: 0 <= a < b < |cols| ==> cols[a].name != cols[b].name
    ensures KeyOf(table, cols[i]) in ColumnEntries(table, cols)
    ensures ColumnEntries(table, cols)[KeyOf(table, cols[i])] == cols[i].description
  {
    var last := |cols| - 1;
    if i < last {
      var init := cols[..last];
      ColumnEntriesValue(table, init, i);
      var p := table + ".";
      assert cols[last].name == (p + cols[last].name)[|p|..];
      assert cols[i].name == (p + cols[i].name)[|p|..];
    }
  }

  /** Every key of the map is "t.c" for a listed table `t` that has a registry
      entry and a column `c` of that table; and every such pair has its key. */
  lemma {:induction false} DescriptionKeys(reg: Registry, names: seq<string>, k: string)
    ensures k in Descriptions(reg, names) <==>
              exists t, c :: t in names && t in reg && c in reg[t] && k == KeyOf(t, c)
  {
    if |names| > 0 {
      var init := names[..|names| - 1];
      var last := names[|names| - 1];
      DescriptionKeys(reg, init, k);
      assert names == init + [last];
      if last in reg {
        ColumnEntriesKeys(last, reg[last], k);
      }
      if k in Descriptions(reg, names) {
        if k in TableEntries(reg, last) {
          var c :| c in reg[last] && k == KeyOf(last, c);
        } else {
          var t, c :| t in init && t in reg && c in reg[t] && k == KeyOf(t, c);
          assert t in names;
        }
      }
      if exists t, c :: t in names && t in reg && c in reg[t] && k == KeyOf(t, c) {
        var t, c :| t in names && t in reg && c in reg[t] && k == KeyOf(t, c);
        if t == last {
          assert k in TableEntries(reg, last);
        } else {
          assert t in init;
        }
      }
    }
  }

  /** The value filed under "t.c" is the description of column `c` of `t`. */
  lemma {:induction false} DescriptionValue(reg: Registry, names: seq<string>, t: string, i: nat)
    requires WellFormed(reg)
    requires t in names && t in reg && i < |reg[t]|
    ensures KeyOf(t, reg[t][i]) in Descriptions(reg, names)
    ensures Descriptions(reg, names)[KeyOf(t, reg[t][i])] == reg[t][i].description
  {
    var k := KeyOf(t, reg[t][i]);
    var init := names[..|names| - 1];
    var last := names[|names| - 1];
    if k in TableEntries(reg, last) {
      ColumnEntriesKeys(last, reg[last], k);
      var c :| c in reg[last] && k == KeyOf(last, c);
      KeySplit(last, c.name, t, reg[t][i].name);
      ColumnEntriesValue(t, reg[t], i);
    } else {
      if t == last {
        ColumnEntriesValue(t, reg[t], i);
        assert false;
      }
      assert names == init + [last];
      assert t in init;
      DescriptionValue(reg, init, t, i);
    }
  }

  /** A name without a registry entry adds nothing. */
  lemma UnregisteredNameAddsNothing(reg: Registry, names: seq<string>, t: string)
    requires t !in reg
    ensures Descriptions(reg, names + [t]) == Descriptions(reg, names)
  {
    assert (names + [t])[..|names|] == names;
  }

  /** Repeating or reordering the table names leaves the map unchanged: it
      depends only on the set of names. */
  lemma SameNamesSameDescriptions(reg: Registry, names1: seq<string>, names2: seq<string>)
    requires WellFormed(reg)
    requires forall t :: t in names1 <==> t in names2
    ensures Descriptions(reg, names1) == Descriptions(reg, names2)
  {
    var d1 := Descriptions(reg, names1);
    var d2 := Descriptions(reg, names2);
    forall k ensures k in d1 <==> k in d2 {
      DescriptionKeys(reg, names1, k);
      DescriptionKeys(reg, names2, k);
    }
    forall k | k in d1 ensures d1[k] == d2[k] {
      DescriptionKeys(reg, names1, k);
      var t, c :| t in names1 && t in reg && c in reg[t] && k == KeyOf(t, c);
      var i :| 0 <= i < |reg[t]| && reg[t][i] == c;
      DescriptionValue(reg, names1, t, i);
      DescriptionValue(reg, names2, t, i);
    }
    assert d1.Keys == d2.Keys;
  }

  /* ---------------- consistency of the constant registry ---------------- */

  function ColumnNames(cols: seq<ColumnDef>): seq<string>
  {
    seq(|cols|, i requires 0 <= i < |cols| => cols[i].name)
  }

  lemma RegistryWellFormed()
    ensures WellFormed(Columns)
  {
    assert Columns.Keys == {"users", "products", "orders"};
  }

  /** Every listed table has columns and data, and nothing else has either. */
  lemma EveryTableHasColumnsAndData()
    ensures forall t :: t in Tables ==> t.name in Columns && t.name in Data
    ensures Columns.Keys == Data.Keys == set t | t in Tables :: t.name
  {
    assert Columns.Keys == {"users", "products", "orders"};
    assert Data.Keys == {"users", "products", "orders"};
    assert Tables[0].name == "users" && Tables[1].name == "products" && Tables[2].name == "orders";
  }

  lemma UserRowsMatch()
    ensures forall r :: r in UserData ==> Keys(r) == ColumnNames(UserColumns)
  {
    assert ColumnNames(UserColumns) == ["id", "name", "email", "signup_date"];
  }

  lemma ProductRowsMatch()
    ensures forall r :: r in ProductData ==> Keys(r) == ColumnNames(ProductColumns)
  {
    assert ColumnNames(ProductColumns) == ["product_id", "product_name", "price", "stock_quantity"];
  }

  lemma OrderRowsMatch()
    ensures forall r :: r in OrderData ==> Keys(r) == ColumnNames(OrderColumns)
  {
    assert ColumnNames(OrderColumns) == ["order_id", "user_id", "product_id", "order_date", "quantity"];
  }

  /** Every row of a table has exactly the declared column names, in declared order. */
  lemma RowsMatchColumns()
    ensures Data.Keys == Columns.Keys
    ensures forall t, r :: t in Data && r in Data[t] ==> Keys(r) == ColumnNames(Columns[t])
  {
    UserRowsMatch();
    ProductRowsMatch();
    OrderRowsMatch();
  }
}
