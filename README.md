# Startup financial projection, modelled in Dafny

The startup-report generator turns a handful of business parameters into a
month-by-month projection table. The parameters are initial users, fee per
user, churn rate, growth rate, fixed monthly cost, variable cost per user and
a number of months. This project models that projection
(`simulate_financials`) and proves what its table contains.

- `frame.dfy` (module `Frame`): the six-column table (Month, Users, Revenue,
  Total Cost, Net Profit, Cash Flow) as a record of sequences. It also models
  the table constructor's one check: every column must have the same length,
  or construction fails.
- `financials.dfy` (module `Financials`):
  - the inputs;
  - the one-month formulas;
  - the specification functions `Users` (the growth/churn recurrence),
    `RunningSums` (the cash-flow accumulator) and `Projection` (the whole
    result);
  - the method `SimulateFinancials`, which runs the source's loop step by step
    and is proved to return `Projection(p)`;
  - lemmas stating the properties of the result.

Numbers are Dafny `real`s, so every identity holds exactly. `months` is an
`int`. The projection accepts every input. When `months < 1` the loop does not
run, so the Users column keeps its single initial element while the other
columns stay empty. Table construction then fails, and the model returns
`Failure(ColumnLengthMismatch)`. A design description of this system calls
that error an invalid-argument error raised by the projector itself. In the
code, the error comes only from the table constructor rejecting columns of
different lengths. The model follows the code.

`Projection` is a function, so two calls with the same inputs give the same
table by construction.

## Model

| member | source | states |
|---|---|---|
| `Frame.MakeTable` | streamlit_app.py:43-50 | the table is built iff all six columns have the same length; otherwise the error is a column-length mismatch; on success every column is kept as given |
| `Financials.Users` | streamlit_app.py:24-34 | the users list for n months has exactly n entries and starts with the initial users |
| `Financials.RunningSums` | streamlit_app.py:38-42 | the cumulative column has one entry per value accumulated |
| `Financials.ColumnsAppend` | streamlit_app.py:35-41 | adding a month appends exactly that month's revenue, total cost and net profit to the existing columns |
| `Financials.SimulateFinancials` | streamlit_app.py:23-51 | the loop, with its five appended lists and its accumulator, returns exactly `Projection(p)`, whether the table is built or fails |
| `Financials.UsersPrefix` | streamlit_app.py:27-32 | projecting k months gives the first k entries of any longer projection |
| `Financials.UsersStep` | streamlit_app.py:28-32 | every month after the first is last month's users plus growth minus churn |
| `Financials.UsersClosedForm` | streamlit_app.py:28-32 | month i+1 has initial users times (1 + growth - churn)^i |
| `Financials.UsersConstant` | streamlit_app.py:29-31 | with equal growth and churn every month has the initial users |
| `Financials.RunningSumsAreSums` | streamlit_app.py:26-42 | entry i of the cumulative column equals the sum of the first i+1 values |
| `Financials.RunningSumsStep` | streamlit_app.py:38-42 | the cumulative column starts with the first value and adds the next value at each step |
| `Financials.RunningSumsLast` | streamlit_app.py:38-42 | the last cumulative value equals the sum of all values |
| `Financials.ProjectionFailsIff` | streamlit_app.py:24-50 | the projection fails iff months < 1, and the failure is the column-length mismatch |
| `Financials.ProjectionShape` | streamlit_app.py:27-50 | for months >= 1 the table has exactly `months` rows in every column, and Month is 1..months with no gaps |
| `Financials.ProjectionUsers` | streamlit_app.py:24-34 | month 1 has exactly the initial users; each later month is last month's users + users*growth - users*churn |
| `Financials.ProjectionRows` | streamlit_app.py:35-37 | in every row revenue = users*fee, total cost = fixed cost + users*variable cost, and net profit = revenue - total cost |
| `Financials.ProjectionCashFlow` | streamlit_app.py:26-42 | cash flow in month 1 equals net profit in month 1; each later month adds its net profit; the last cash flow is the sum of all net profits |
| `Financials.ProjectionConstantUsers` | streamlit_app.py:29-31 | when growth equals churn the Users column is the initial users in every month |
| `Financials.ProjectionUsersClosedForm` | streamlit_app.py:28-32 | the Users column is geometric: initial users times (1 + growth - churn)^(month-1) |
| `Financials.ProjectionUsersNonNegative` | streamlit_app.py:114-120 | with inputs inside the form's bounds, no month has a negative user count |
| `Financials.ProjectionSingleMonth` | streamlit_app.py:27-42 | a one-month projection is a single row of the initial users and their revenue, cost and profit, with cash flow equal to that profit |
| `Financials.ProjectionExample` | streamlit_app.py:23-51 | 100 users, fee 10, churn 0.1, growth 0.2, fixed cost 1000, variable cost 2, over 3 months, give users 100/110/121 and cash flow -200/-320/-352 |

## Left out

- `markdown_to_text` (streamlit_app.py:18-21): a wrapper over external markdown and HTML libraries whose code is not part of this model.
- `generate_financial_graph` (streamlit_app.py:53-60): plotting and UI output only.
- `generate_section` (streamlit_app.py:62-74): a network call to a text-generation service.
- `build_startup_report` (streamlit_app.py:76-104): document building, file saving and network calls. Its only logic is converting form values with `float`/`int`. The model takes typed inputs, so the "value is not a number" error is not modelled.
- Configuration, secrets and the input form (streamlit_app.py:13-15, 107-140): I/O and UI. The form's bounds appear only as the predicate `FormBounds`, which the projection does not require.
- IEEE floating-point rounding: arithmetic is over exact reals. The source does no rounding or truncation of its own.
- The data-frame library type: replaced by the `Table` record of six sequences. Its constructor's length check is modelled by `MakeTable`.
