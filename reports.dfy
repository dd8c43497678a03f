/** The rows the analytics endpoint reports and the admin panel reads. */
module Reports {
  import opened Sql

  /** A `page_views` row. */
  datatype PageViewRow = PageViewRow(date: string, views: int)

  /** A `social_analytics` row. */
  datatype SocialRow = SocialRow(date: string, platform: string, clicks: int)

  /** A row of `SELECT DATE(created_at) as date, COUNT(*) as count ... GROUP BY DATE(created_at)`. */
  datatype StatRow = StatRow(date: Cell, count: int)
}
