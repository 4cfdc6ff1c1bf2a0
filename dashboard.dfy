/**
 * The page's state and its refresh cycle: the two data sets the feeds fill,
 * the summary values the expenses feed carries, and what a refresh shows in
 * the header and the chart.
 */
module Dashboard {
  import opened Options
  import opened Feed
  import opened Works
  import opened Expenses
  import opened Summary
  import opened ClientChart

  /** The header figures: total revenue, total credit, current balance and client count. */
  datatype HeaderStats = HeaderStats(totalRevenue: real, totalCredit: real, balance: real, totalClients: nat)

  /**
   * The page's data. `summaryValues` is the property the expenses mapper
   * attaches to its result; the initial empty array has none.
   */
  class DashboardState {
    var worksData: seq<WorkRecord>
    var expensesData: seq<ExpenseRecord>
    var summaryValues: Option<SheetSummary>

    /** The page before any feed has loaded. */
    constructor ()
      ensures worksData == [] && expensesData == [] && summaryValues == None
    {
      worksData := [];
      expensesData := [];
      summaryValues := None;
    }

    /**
     * `fetchWorksData`: a response replaces the works with its parsed feed; a
     * failed fetch (`None`) is caught and leaves everything as it was.
     */
    method FetchWorksData(response: Option<string>, readDate: DateReader)
      modifies this
      ensures response.Some? ==> worksData == ParseWorks(response.value, readDate)
      ensures response.None? ==> worksData == old(worksData)
      ensures expensesData == old(expensesData) && summaryValues == old(summaryValues)
    {
      if response.Some? {
        worksData := ParseWorksCsv(response.value, readDate);
      }
    }

    /**
     * `fetchExpensesData`: a response replaces the expenses and their summary
     * values with its parsed feed; a failed fetch leaves everything as it was.
     */
    method FetchExpensesData(response: Option<string>, readDate: DateReader)
      modifies this
      ensures response.Some? ==> && summaryValues.Some?
                                 && ExpenseSheet(expensesData, summaryValues.value) == ParseExpenses(response.value, readDate)
      ensures response.None? ==> expensesData == old(expensesData) && summaryValues == old(summaryValues)
      ensures worksData == old(worksData)
    {
      if response.Some? {
        var data, summary := ParseExpensesCsv(response.value, readDate);
        expensesData := data;
        summaryValues := Some(summary);
      }
    }

    /**
     * `updateSummary`: the header figures and the chart. Total credit and
     * balance are 0 until an expenses feed has loaded; the client count is
     * the number of distinct non-empty client names; and the revenue splits
     * into the chart's per-client revenues and the works that name no client.
     */
    method UpdateSummary() returns (stats: HeaderStats, chart: Chart)
      ensures summaryValues.None? ==> stats.totalCredit == 0.0 && stats.balance == 0.0
      ensures summaryValues.Some? ==> && stats.totalCredit == summaryValues.value.totalCredit
                                      && stats.balance == summaryValues.value.balance
      ensures stats.totalClients == |ClientSet(worksData)|
      ensures stats.totalRevenue == TotalRevenue(worksData)
      ensures stats.totalRevenue == SumRevenue(RevenueEntries(worksData)) + ClientTotal(worksData, "")
      ensures chart.NoClientData? <==> worksData == [] || forall k :: 0 <= k < |worksData| ==> worksData[k].client == ""
      ensures !chart.NoRevenueData?
      ensures chart.Bars? ==> && chart.bars == TopClients(RevenueEntries(worksData))
                              && chart.bars != []
                              && chart.maxRevenue == chart.bars[0].revenue
    {
      var totalRevenue := TotalRevenue(worksData);
      var totalCredit := if summaryValues.Some? then summaryValues.value.totalCredit else 0.0;
      var currentBalance := if summaryValues.Some? then summaryValues.value.balance else 0.0;
      var uniqueClients := UniqueClients(worksData);
      ClientCount(worksData);
      RevenueConservation(worksData);
      NoClients(worksData);
      stats := HeaderStats(totalRevenue, totalCredit, currentBalance, |uniqueClients|);
      chart := GenerateClientChart(uniqueClients, worksData);
    }

    /**
     * `loadData`: both feeds are fetched (each catching its own failure), then
     * the header and chart are recomputed from the new state.
     */
    method LoadData(worksResponse: Option<string>, expensesResponse: Option<string>, readDate: DateReader)
      returns (stats: HeaderStats, chart: Chart)
      modifies this
      ensures worksResponse.Some? ==> worksData == ParseWorks(worksResponse.value, readDate)
      ensures worksResponse.None? ==> worksData == old(worksData)
      ensures expensesResponse.Some? ==> && summaryValues.Some?
                                         && ExpenseSheet(expensesData, summaryValues.value) == ParseExpenses(expensesResponse.value, readDate)
      ensures expensesResponse.None? ==> expensesData == old(expensesData) && summaryValues == old(summaryValues)
      ensures summaryValues.None? ==> stats.totalCredit == 0.0 && stats.balance == 0.0
      ensures summaryValues.Some? ==> && stats.totalCredit == summaryValues.value.totalCredit
                                      && stats.balance == summaryValues.value.balance
      ensures stats.totalClients == |ClientSet(worksData)|
      ensures stats.totalRevenue == TotalRevenue(worksData)
      ensures stats.totalRevenue == SumRevenue(RevenueEntries(worksData)) + ClientTotal(worksData, "")
      ensures chart.NoClientData? <==> worksData == [] || forall k :: 0 <= k < |worksData| ==> worksData[k].client == ""
      ensures !chart.NoRevenueData?
      ensures chart.Bars? ==> && chart.bars == TopClients(RevenueEntries(worksData))
                              && chart.bars != []
                              && chart.maxRevenue == chart.bars[0].revenue
    {
      FetchWorksData(worksResponse, readDate);
      FetchExpensesData(expensesResponse, readDate);
      stats, chart := UpdateSummary();
    }
  }
}
