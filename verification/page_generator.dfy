/** The configuration-driven page generator: one page per page
    configuration, whose top-level component must be a data table.  The page
    directory is created first; the content is then generated, and an
    unsupported component type throws before anything is written. */
module PageGenerator {
  import opened Wrappers
  import opened Text
  import opened Json
  import opened Effects

  datatype PageData = PageData(source: string, dataType: string, query: Value)

  datatype PageComponent = PageComponent(typeName: string, config: Value, data: PageData)

  /** A page configuration.  `path` is a route such as `/customers`. */
  datatype PageConfig = PageConfig(path: string, title: string, component: PageComponent)

  /** The route without its leading character: the page's directory name. */
  function PageName(c: PageConfig): string {
    DropFirst(c.path)
  }

  /** The name of the page's default export. */
  function FunctionName(path: string): string {
    CapitalizeFirst(DropFirst(path)) + "Page"
  }

  const H1Open: string := "<h1 className=\"text-3xl " + "font-bold tracking-tight mb-6\">"

  /** The pieces of the data-table page template, in order; joining them
      gives the page text. */
  function DataTablePieces(c: PageConfig): (pieces: seq<string>)
    ensures |pieces| == 13
  {
    var rowType := c.component.data.dataType;
    ["'use client';\n"
       + "\n"
       + "import { useState, " + "useEffect } " + "from 'react';\n"
       + "import { DataTable } " + "from '@/components/" + "ui/data-table';\n"
       + "import { dataService } " + "from '@/core/" + "data-service';\n"
       + "import { TableSchema } " + "from '@/core/" + "schemas/table';\n"
       + "\n",
     "interface " + rowType + " {",
     "\n"
       + "  id: string;\n"
       + "  name: string;\n"
       + "  email: string;\n"
       + "  status: 'active' " + "| 'inactive';\n"
       + "}\n"
       + "\n",
     "const tableConfig: TableSchema = " + StringifyText(c.component.config) + ";",
     "\n\n",
     "export default function " + FunctionName(c.path) + "() {",
     "\n"
       + "  const [data, setData] " + "= useState<" + rowType + "[]>([]);\n"
       + "  const [loading, " + "setLoading] " + "= useState(true);\n"
       + "\n"
       + "  useEffect(() => {\n"
       + "    const fetchData " + "= async () => {\n"
       + "      try {\n"
       + "        const source " + "= dataService.",
     "getSource<" + rowType + ">('" + c.component.data.source + "')",
     ";\n"
       + "        if (source) {\n"
       + "          const result " + "= await ",
     "source.getData(" + StringifyText(c.component.data.query) + ")",
     ";\n"
       + "          " + "setData(result);\n"
       + "        }\n"
       + "      } catch (error) {\n"
       + "        console.error(" + "'Error fetching data:', " + "error);\n"
       + "      } finally {\n"
       + "        " + "setLoading(false);\n"
       + "      }\n"
       + "    };\n"
       + "\n"
       + "    fetchData();\n"
       + "  }, []);\n"
       + "\n"
       + "  if (loading) {\n"
       + "    return " + "<div>Loading...</div>;\n"
       + "  }\n"
       + "\n"
       + "  return (\n"
       + "    <div className=" + "\"container mx-auto " + "py-10\">\n"
       + "      ",
     H1Open + c.title + "</h1>",
     "\n"
       + "      <DataTable<" + rowType + ">\n"
       + "        config=" + "{tableConfig}\n"
       + "        data={data}\n"
       + "      />\n"
       + "    </div>\n"
       + "  );\n"
       + "}"]
  }

  /** `generateDataTablePage(config)`. */
  function DataTablePage(c: PageConfig): string {
    Join(DataTablePieces(c), "")
  }

  /** The message of the error thrown for any other component type. */
  function UnsupportedMessage(t: string): string {
    "Unsupported component type: " + t
  }

  /** `generatePageContent(config)`: only a `DataTable` component has a
      template; any other type, compared case-sensitively, throws. */
  function Content(c: PageConfig): (r: Result<string, Fault>)
    ensures r.Success? <==> c.component.typeName == "DataTable"
    ensures r.Failure? ==> r.error == Unsupported(UnsupportedMessage(c.component.typeName))
  {
    if c.component.typeName == "DataTable" then Success(DataTablePage(c))
    else Failure(Unsupported(UnsupportedMessage(c.component.typeName)))
  }

  /** The generated page embeds the table configuration and the query as
      JSON, and the source name in single quotes. */
  lemma DataTablePageShowsData(c: PageConfig)
    ensures Contains(DataTablePage(c), "const tableConfig: TableSchema = " + StringifyText(c.component.config) + ";")
    ensures Contains(DataTablePage(c), "source.getData(" + StringifyText(c.component.data.query) + ")")
    ensures Contains(DataTablePage(c), "getSource<" + c.component.data.dataType + ">('" + c.component.data.source + "')")
  {
    var ps := DataTablePieces(c);
    JoinContainsEach(ps, "", 3);
    JoinContainsEach(ps, "", 7);
    JoinContainsEach(ps, "", 9);
  }

  /** The generated page names the row type as its interface, shows the
      title inside the `h1`, and declares the page function under its
      derived name. */
  lemma DataTablePageShowsNames(c: PageConfig)
    ensures Contains(DataTablePage(c), "interface " + c.component.data.dataType + " {")
    ensures Contains(DataTablePage(c), H1Open + c.title + "</h1>")
    ensures Contains(DataTablePage(c), "export default function " + FunctionName(c.path) + "() {")
  {
    var ps := DataTablePieces(c);
    JoinContainsEach(ps, "", 1);
    JoinContainsEach(ps, "", 5);
    JoinContainsEach(ps, "", 11);
  }

  /** `/customers` gives the page function `CustomersPage`. */
  lemma CustomersFunctionName()
    ensures FunctionName("/customers") == "CustomersPage"
  {
    assert DropFirst("/customers") == "customers";
    assert CapitalizeFirst("customers") == "Customers";
  }

  /** The steps of `generatePage` once the content is known: the directory
      is created before the content is generated, and the page is written
      only when generation succeeded. */
  function PageRun(dir: Path, content: Result<string, Fault>): (r: Run)
    ensures |r.effects| >= 1 && r.effects[0] == MakeDir(dir)
    ensures r.failure.None? <==> content.Success?
    ensures content.Success? ==> r.effects == [MakeDir(dir), WriteFile(dir + ["page.tsx"], content.value)]
    ensures content.Failure? ==> r == Run([MakeDir(dir)], Some(content.error))
  {
    match content
    case Failure(e) => Run([MakeDir(dir)], Some(e))
    case Success(text) => Done([MakeDir(dir), WriteFile(dir + ["page.tsx"], text)])
  }

  /** `generatePage(config)` with the directory `<pagesDir>/<path minus its
      first character>`. */
  function GeneratePage(pagesDir: Path, c: PageConfig): Run {
    PageRun(pagesDir + [PageName(c)], Content(c))
  }

  /** An unsupported type leaves the page directory behind, writes no page
      and reports the type in its error. */
  lemma GeneratePageUnsupported(pagesDir: Path, c: PageConfig)
    requires c.component.typeName != "DataTable"
    ensures GeneratePage(pagesDir, c)
         == Run([MakeDir(pagesDir + [PageName(c)])], Some(Unsupported(UnsupportedMessage(c.component.typeName))))
  {
  }

  /** A data-table configuration creates the directory, then writes the
      generated page to `page.tsx` inside it. */
  lemma GeneratePageDataTable(pagesDir: Path, c: PageConfig)
    requires c.component.typeName == "DataTable"
    ensures GeneratePage(pagesDir, c).failure.None?
    ensures GeneratePage(pagesDir, c).effects
         == [MakeDir(pagesDir + [PageName(c)]), WriteFile(pagesDir + [PageName(c)] + ["page.tsx"], DataTablePage(c))]
  {
  }

  function PageRuns(pagesDir: Path, configs: seq<PageConfig>): (runs: seq<Run>)
    ensures |runs| == |configs|
    ensures forall i :: 0 <= i < |configs| ==> runs[i] == GeneratePage(pagesDir, configs[i])
  {
    seq(|configs|, i requires 0 <= i < |configs| => GeneratePage(pagesDir, configs[i]))
  }

  /** `generatePages()` over the loaded configurations, in order, without a
      `catch`. */
  function GeneratePages(pagesDir: Path, configs: seq<PageConfig>): Run {
    RunAll(PageRuns(pagesDir, configs))
  }

  /** The first configuration with an unsupported type ends the batch with
      its error, after its directory was created; no later page is
      touched. */
  lemma GeneratePagesStopsAtFirstUnsupported(pagesDir: Path, configs: seq<PageConfig>, k: nat)
    requires k < |configs| && configs[k].component.typeName != "DataTable"
    requires forall i :: 0 <= i < k ==> configs[i].component.typeName == "DataTable"
    ensures var runs := PageRuns(pagesDir, configs);
      GeneratePages(pagesDir, configs) == Run(AllEffects(runs[..k + 1]), Some(Unsupported(UnsupportedMessage(configs[k].component.typeName))))
  {
    var runs := PageRuns(pagesDir, configs);
    forall i | 0 <= i < k ensures runs[i].failure.None? {
      GeneratePageDataTable(pagesDir, configs[i]);
    }
    GeneratePageUnsupported(pagesDir, configs[k]);
    RunAllStopsAtFirstFailure(runs, k);
  }

  /** When every configuration is a data table, every page is written, in
      order. */
  lemma GeneratePagesAllDataTables(pagesDir: Path, configs: seq<PageConfig>)
    requires forall i :: 0 <= i < |configs| ==> configs[i].component.typeName == "DataTable"
    ensures GeneratePages(pagesDir, configs) == Done(AllEffects(PageRuns(pagesDir, configs)))
  {
    var runs := PageRuns(pagesDir, configs);
    forall i | 0 <= i < |configs| ensures runs[i].failure.None? {
      GeneratePageDataTable(pagesDir, configs[i]);
    }
    RunAllSucceeds(runs);
  }
}
